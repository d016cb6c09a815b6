/** Unity Catalog column descriptors for mapped types. */
module UnityCatalog {
  import opened Wrappers
  import opened Text
  import opened TypeMapping
  import opened TypeRoundTrip

  /** The type of a Spark struct field: a named type or an array of one. */
  datatype SparkType = Prim(name: string) | ArrayOf(element: SparkType)

  /** `^DECIMAL\((\d+),(\d+)\)$`: the digit groups. */
  function DecimalArgs(t: string): (r: Option<(string, string)>)
    ensures r.Some? ==> AllDigits(r.value.0) && AllDigits(r.value.1)
  {
    if !StartsWith(t, "DECIMAL(") then None
    else
      var u := t[8..];
      var n := DigitRun(u);
      if n == 0 || n == |u| || u[n] != ',' then None
      else
        var v := u[n + 1..];
        var m := DigitRun(v);
        if m > 0 && v[m..] == ")" then Some((u[..n], v[..m])) else None
  }

  /** `^ARRAY<(.+)>$` */
  function ArrayArg(t: string): (r: Option<string>)
    ensures r.Some? ==> |r.value| < |t|
  {
    if |t| > 7 && t[..6] == "ARRAY<" && t[|t| - 1] == '>' && '\n' !in t[6..|t| - 1] then Some(t[6..|t| - 1]) else None
  }

  /** Catalog type name and Spark type name of a plain Delta type. */
  function ScalarNames(t: string): Option<(string, string)> {
    match t
    case "BOOLEAN" => Some(("BOOLEAN", "boolean"))
    case "SHORT" => Some(("SHORT", "short"))
    case "INTEGER" => Some(("INT", "integer"))
    case "INT" => Some(("INT", "integer"))
    case "LONG" => Some(("LONG", "long"))
    case "FLOAT" => Some(("FLOAT", "float"))
    case "DOUBLE" => Some(("DOUBLE", "double"))
    case "STRING" => Some(("STRING", "string"))
    case "BINARY" => Some(("BINARY", "binary"))
    case "DATE" => Some(("DATE", "date"))
    case "TIMESTAMP" => Some(("TIMESTAMP", "timestamp"))
    case "TIMESTAMP_NTZ" => Some(("TIMESTAMP_NTZ", "timestamp_ntz"))
    case _ => None
  }

  function SparkJsonType(t: string): Option<SparkType>
    decreases |t|
  {
    match DecimalArgs(t)
    case Some((p, s)) => Some(Prim("decimal(" + p + "," + s + ")"))
    case None =>
      match ArrayArg(t)
      case Some(e) => (match SparkJsonType(e) case Some(inner) => Some(ArrayOf(inner)) case None => None)
      case None => (match ScalarNames(t) case Some(names) => Some(Prim(names.1)) case None => None)
  }

  datatype TypeName = TypeName(name: string, parameters: Option<(nat, nat)>)

  function UcTypeName(t: string): Option<TypeName> {
    match DecimalArgs(t)
    case Some((p, s)) => Some(TypeName("DECIMAL", Some((ParseDecimal(p), ParseDecimal(s)))))
    case None =>
      if ArrayArg(t).Some? then Some(TypeName("ARRAY", None))
      else match ScalarNames(t) case Some(names) => Some(TypeName(names.0, None)) case None => None
  }

  datatype UcColumn = UcColumn(
    name: string, typeText: string, typeName: TypeName, typeJson: SparkType, position: nat, nullable: bool)

  function ColumnOf(name: string, pgType: string, position: nat, nullable: bool): Result<UcColumn, string> {
    match MapPgToDelta(pgType)
    case Err(e) => Err(e)
    case Ok(l) =>
      if UcTypeName(l.deltaType) == None then Err("no type name for delta type")
      else if SparkJsonType(l.deltaType) == None then Err("cannot express delta type")
      else Ok(UcColumn(name, Lower(l.deltaType), UcTypeName(l.deltaType).value, SparkJsonType(l.deltaType).value,
                       position, nullable))
  }

  // ---- Nothing is lost on the way to the catalog ----

  /** The Delta type a Spark type stands for. */
  function DeltaOf(t: SparkType): string {
    match t
    case Prim(name) => Upper(name)
    case ArrayOf(e) => "ARRAY<" + DeltaOf(e) + ">"
  }

  /** The catalog type name a Delta type must get. */
  function ExpectedName(d: DeltaTree): TypeName {
    match d
    case DecimalTree(p, s) => TypeName("DECIMAL", Some((p, s)))
    case ArrayTree(_) => TypeName("ARRAY", None)
    case Plain(x) => TypeName(if x == Integer then "INT" else DeltaName(x), None)
  }

  lemma StrictArgsParse(x: string, y: string, t: string)
    requires AllDigits(x) && AllDigits(y) && t == "DECIMAL(" + x + "," + y + ")"
    ensures DecimalArgs(t) == Some((x, y))
  {
    assert x != "" && y != "";
    hide DigitRun, AllDigits;
    assert t[..8] == "DECIMAL(" && t[8..] == x + ("," + y + ")");
    DigitRunExact(x, "," + y + ")");
    assert ("," + y + ")")[1..] == y + ")";
    assert t[8..][|x| + 1..] == y + ")";
    DigitRunExact(y, ")");
  }

  lemma UpperDecimal(x: string, y: string)
    requires AllDigits(x) && AllDigits(y)
    ensures Upper("decimal(" + x + "," + y + ")") == "DECIMAL(" + x + "," + y + ")"
  {
    var a, b := "decimal(" + x + "," + y + ")", "DECIMAL(" + x + "," + y + ")";
    assert Upper("decimal(") == "DECIMAL(";
    forall i | 0 <= i < |a|
      ensures UpperChar(a[i]) == b[i]
    {
      if i < 8 {
        assert Upper("decimal(")[i] == UpperChar("decimal("[i]);
        assert a[i] == "decimal("[i] && b[i] == "DECIMAL("[i];
      } else if i < 8 + |x| {
        assert a[i] == x[i - 8] && b[i] == x[i - 8];
      } else if 9 + |x| <= i < 9 + |x| + |y| {
        assert a[i] == y[i - 9 - |x|] && b[i] == y[i - 9 - |x|];
      }
    }
  }

  function SparkName(x: Scalar): string {
    match x
    case Boolean => "boolean"
    case Short => "short"
    case Integer => "integer"
    case Long => "long"
    case Float => "float"
    case Double => "double"
    case Str => "string"
    case Binary => "binary"
    case Date => "date"
    case Timestamp => "timestamp"
    case TimestampNtz => "timestamp_ntz"
  }

  lemma PlainNames(x: Scalar)
    ensures ScalarNames(DeltaName(x)) == Some((ExpectedName(Plain(x)).name, SparkName(x)))
  {
  }

  lemma SparkNameUpper(x: Scalar)
    ensures Upper(SparkName(x)) == DeltaName(x)
  {
  }

  lemma PlainIsNotArray(x: Scalar)
    ensures ArrayArg(DeltaName(x)) == None
  {
  }

  lemma PlainIsNotDecimal(x: Scalar)
    ensures !StartsWith(DeltaName(x), "DECIMAL(")
  {
    hide StartsWith;
    if x == Double || x == Date {
      TooShort(DeltaName(x), "DECIMAL(");
    } else {
      OtherStart(DeltaName(x), "DECIMAL(");
    }
  }

  lemma ArrayParses(inner: string, t: string)
    requires inner != "" && '\n' !in inner && t == "ARRAY<" + inner + ">"
    ensures DecimalArgs(t) == None && ArrayArg(t) == Some(inner)
  {
    OtherStart(t, "DECIMAL(");
    assert t[..6] == "ARRAY<" && t[6..|t| - 1] == inner;
  }

  /** Every tree's text has a Spark type that stands for it, and the expected type name. */
  lemma {:induction false} TreeDescribed(d: DeltaTree)
    ensures SparkJsonType(DeltaText(d)).Some? && DeltaOf(SparkJsonType(DeltaText(d)).value) == DeltaText(d)
    ensures UcTypeName(DeltaText(d)) == Some(ExpectedName(d))
  {
    hide DecimalArgs, ArrayArg, ScalarNames, Upper, DeltaName, SparkName;
    match d
    case Plain(x) =>
      PlainNames(x);
      SparkNameUpper(x);
      PlainIsNotArray(x);
      PlainIsNotDecimal(x);
      NoDecimalArgs(DeltaName(x));
    case DecimalTree(p, s) =>
      var a, b := Decimal(p), Decimal(s);
      DecimalDescribed(a, b, DeltaText(d));
      ParseDecimalInverts(p);
      ParseDecimalInverts(s);
    case ArrayTree(e) =>
      TreeDescribed(e);
      DeltaTextEnds(e);
      ArrayParses(DeltaText(e), DeltaText(d));
  }

  lemma NoDecimalArgs(t: string)
    requires !StartsWith(t, "DECIMAL(")
    ensures DecimalArgs(t) == None
  {
  }

  lemma DecimalDescribed(x: string, y: string, t: string)
    requires AllDigits(x) && AllDigits(y) && t == "DECIMAL(" + x + "," + y + ")"
    ensures SparkJsonType(t).Some? && DeltaOf(SparkJsonType(t).value) == t
    ensures UcTypeName(t) == Some(TypeName("DECIMAL", Some((ParseDecimal(x), ParseDecimal(y)))))
  {
    StrictArgsParse(x, y, t);
    UpperDecimal(x, y);
  }

  lemma UpperLower(s: string)
    requires forall i | 0 <= i < |s| :: !IsLower(s[i])
    ensures Upper(Lower(s)) == s
  {
  }

  lemma {:induction false} NoLowerCase(d: DeltaTree)
    ensures forall i | 0 <= i < |DeltaText(d)| :: !IsLower(DeltaText(d)[i])
  {
    match d
    case Plain(x) =>
    case DecimalTree(p, s) =>
      var x, y := Decimal(p), Decimal(s);
      var t := DeltaText(d);
      forall i | 0 <= i < |t|
        ensures !IsLower(t[i])
      {
        if 8 <= i < 8 + |x| {
          assert t[i] == x[i - 8];
        } else if 9 + |x| <= i < 9 + |x| + |y| {
          assert t[i] == y[i - 9 - |x|];
        }
      }
    case ArrayTree(e) => NoLowerCase(e);
  }

  /** A mappable column never fails to register, and all three type fields name its Delta type. */
  lemma ColumnFaithful(name: string, pgType: string, position: nat, nullable: bool)
    requires MapPgToDelta(pgType).Ok?
    ensures var c := ColumnOf(name, pgType, position, nullable);
      var delta := MapPgToDelta(pgType).value.deltaType;
      && c.Ok? && c.value.name == name && c.value.position == position && c.value.nullable == nullable
      && Upper(c.value.typeText) == delta && (forall x | x in c.value.typeText :: !IsUpper(x))
      && DeltaOf(c.value.typeJson) == delta
      && exists d :: DeltaText(d) == delta && c.value.typeName == ExpectedName(d)
  {
    hide MapPgToDelta, SparkJsonType, UcTypeName, DeltaText, Upper, Lower, DeltaOf;
    var d := ProducedTree(pgType);
    TreeDescribed(d);
    NoLowerCase(d);
    UpperLower(DeltaText(d));
    NoUpperCase(DeltaText(d));
  }

  lemma NoUpperCase(s: string)
    ensures forall x | x in Lower(s) :: !IsUpper(x)
  {
  }
}
