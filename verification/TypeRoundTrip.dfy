/** What survives a trip through the type mapping, in either direction, at any array depth. */
module TypeRoundTrip {
  import opened Wrappers
  import opened Text
  import opened TypeMapping

  datatype Scalar =
    Boolean | Short | Integer | Long | Float | Double | Str | Binary | Date | Timestamp | TimestampNtz

  /** The Delta types the forward mapping can produce, as a tree. */
  datatype DeltaTree = Plain(scalar: Scalar) | DecimalTree(precision: nat, scale: nat) | ArrayTree(element: DeltaTree)

  function DeltaName(x: Scalar): string {
    match x
    case Boolean => "BOOLEAN"
    case Short => "SHORT"
    case Integer => "INTEGER"
    case Long => "LONG"
    case Float => "FLOAT"
    case Double => "DOUBLE"
    case Str => "STRING"
    case Binary => "BINARY"
    case Date => "DATE"
    case Timestamp => "TIMESTAMP"
    case TimestampNtz => "TIMESTAMP_NTZ"
  }

  function PgName(x: Scalar): string {
    match x
    case Boolean => "boolean"
    case Short => "smallint"
    case Integer => "integer"
    case Long => "bigint"
    case Float => "real"
    case Double => "double precision"
    case Str => "text"
    case Binary => "bytea"
    case Date => "date"
    case Timestamp => "timestamp with time zone"
    case TimestampNtz => "timestamp without time zone"
  }

  function ScalarOf(deltaName: string): Scalar {
    match deltaName
    case "BOOLEAN" => Boolean
    case "SHORT" => Short
    case "INTEGER" => Integer
    case "LONG" => Long
    case "FLOAT" => Float
    case "DOUBLE" => Double
    case "STRING" => Str
    case "BINARY" => Binary
    case "DATE" => Date
    case "TIMESTAMP" => Timestamp
    case _ => TimestampNtz
  }

  function DeltaText(d: DeltaTree): string {
    match d
    case Plain(x) => DeltaName(x)
    case DecimalTree(p, s) => ParenPairText("DECIMAL", p, s)
    case ArrayTree(e) => "ARRAY<" + DeltaText(e) + ">"
  }

  function PgText(d: DeltaTree): string {
    match d
    case Plain(x) => PgName(x)
    case DecimalTree(p, s) => ParenPairText("numeric", p, s)
    case ArrayTree(e) => PgText(e) + "[]"
  }

  predicate WithinPrecision(d: DeltaTree) {
    match d
    case Plain(_) => true
    case DecimalTree(p, _) => p <= MAX_PRECISION
    case ArrayTree(e) => WithinPrecision(e)
  }

  // ---- Printed parameter lists parse back ----

  lemma SkipNothing(s: string)
    requires s != "" ==> !IsSpace(s[0])
    ensures SkipSpace(s) == s
  {
  }

  lemma ParenPairParses(x: string, y: string)
    requires AllDigits(x) && AllDigits(y)
    ensures ParenPair("(" + x + "," + y + ")") == Some((x, y))
  {
    var rest := "," + (y + ")");
    var u := "(" + x + "," + y + ")";
    assert u[1..] == x + rest;
    assert IsDigit(x[0]) && IsDigit(y[0]);
    SkipNothing(x + rest);
    DigitRunExact(x, rest);
    SkipNothing(rest);
    assert rest[1..] == y + ")";
    SkipNothing(y + ")");
    DigitRunExact(y, ")");
    SkipNothing(")");
  }

  // ---- Normal strings and array suffixes ----

  /** A normalized, non-empty type text. */
  predicate Canonical(t: string) {
    t != "" && IsNormal(t)
  }

  lemma CanonicalFixed(t: string)
    requires Canonical(t)
    ensures Normalize(t) == t && RStrip(t) == t
  {
    SqueezeNormal(t);
    assert NormalAt(t, |t| - 1);
  }

  lemma CanonicalArray(t: string)
    requires Canonical(t)
    ensures Canonical(t + "[]") && Normalize(t + "[]") == t + "[]" && ArrayElement(t + "[]") == Some(t)
  {
    var a := t + "[]";
    CanonicalFixed(t);
    assert NormalAt(t, |t| - 1);
    forall i: nat | i < |a|
      ensures NormalAt(a, i)
    {
      if i < |t| {
        assert NormalAt(t, i);
      }
    }
    CanonicalFixed(a);
    assert a[..|a| - 1] == t + "[" && (t + "[")[..|t|] == t;
  }

  lemma CanonicalNumeric(p: nat, s: nat)
    ensures Canonical(ParenPairText("numeric", p, s))
  {
    var t := ParenPairText("numeric", p, s);
    var x, y := Decimal(p), Decimal(s);
    forall i: nat | i < |t|
      ensures NormalAt(t, i)
    {
      if 8 <= i < 8 + |x| {
        assert t[i] == x[i - 8];
      } else if 9 + |x| <= i < 9 + |x| + |y| {
        assert t[i] == y[i - 9 - |x|];
      }
    }
  }

  lemma NotNamed(t: string)
    requires |t| > 7 && t[7] == '('
    ensures NamedType(t) == None
  {
  }

  lemma NumericArgsParse(x: string, y: string)
    requires AllDigits(x) && AllDigits(y)
    ensures NumericArgs("numeric(" + x + "," + y + ")") == Some((x, y))
  {
    var u := "(" + x + "," + y + ")";
    assert ("numeric(" + x + "," + y + ")")[7..] == u;
    SkipNothing(u);
    ParenPairParses(x, y);
  }

  lemma ScalarNumeric(x: string, y: string)
    requires AllDigits(x) && AllDigits(y)
    ensures ScalarType("numeric(" + x + "," + y + ")") == Some(NumericType(ParseDecimal(x), ParseDecimal(y)))
  {
    NumericArgsParse(x, y);
    NotNamed("numeric(" + x + "," + y + ")");
  }

  /** A canonical text that is not an array maps by its scalar rule. */
  lemma MapScalar(t: string, l: LogicalType)
    requires Canonical(t) && ArrayElement(t) == None && ScalarType(t) == Some(l)
    ensures MapPgToDelta(t) == Ok(l)
  {
    CanonicalFixed(t);
  }

  lemma MapNumericText(x: string, y: string, t: string)
    requires AllDigits(x) && AllDigits(y) && t == "numeric(" + x + "," + y + ")" && Canonical(t)
    ensures MapPgToDelta(t) == Ok(NumericType(ParseDecimal(x), ParseDecimal(y)))
  {
    var l := NumericType(ParseDecimal(x), ParseDecimal(y));
    ScalarNumeric(x, y);
    assert ScalarType(t) == Some(l);
    assert t[|t| - 1] == ')';
    MapScalar(t, l);
  }

  lemma MapNumeric(p: nat, s: nat)
    ensures MapPgToDelta(ParenPairText("numeric", p, s)) == Ok(NumericType(p, s))
  {
    CanonicalNumeric(p, s);
    MapNumericText(Decimal(p), Decimal(s), ParenPairText("numeric", p, s));
    ParseDecimalInverts(p);
    ParseDecimalInverts(s);
  }

  lemma MapArray(t: string)
    requires Canonical(t) && MapPgToDelta(t).Ok?
    ensures var l := MapPgToDelta(t).value;
      MapPgToDelta(t + "[]") == Ok(LogicalType("ARRAY<" + l.deltaType + ">", true, l.reversePgType + "[]"))
  {
    CanonicalArray(t);
  }

  // ---- Names ----

  predicate IsWord(w: string) {
    w != "" && forall i | 0 <= i < |w| :: !IsUpper(w[i]) && !IsSpace(w[i])
  }

  lemma JoinCanonical(a: string, w: string, t: string)
    requires (Canonical(a) || IsWord(a)) && IsWord(w) && t == a + " " + w
    ensures Canonical(t) && t[|t| - 1] == w[|w| - 1]
  {
    forall i: nat | i < |t|
      ensures NormalAt(t, i)
    {
      if i < |a| {
        assert IsWord(a) || NormalAt(a, i);
        assert t[i] == a[i] && (i + 1 < |a| ==> t[i + 1] == a[i + 1]);
      } else if i > |a| {
        assert t[i] == w[i - |a| - 1];
      } else {
        assert t[i + 1] == w[0];
      }
    }
  }

  lemma WordCanonical(w: string)
    requires IsWord(w)
    ensures Canonical(w)
  {
    forall i: nat | i < |w|
      ensures NormalAt(w, i)
    {
    }
  }

  lemma LongWordsCanonical()
    ensures Canonical("timestamp with time zone")
    ensures Canonical("timestamp without time zone")
  {
    JoinCanonical("timestamp", "with", "timestamp with");
    JoinCanonical("timestamp", "without", "timestamp without");
    JoinCanonical("timestamp with", "time", "timestamp with time");
    JoinCanonical("timestamp without", "time", "timestamp without time");
    JoinCanonical("timestamp with time", "zone", "timestamp with time zone");
    JoinCanonical("timestamp without time", "zone", "timestamp without time zone");
  }

  lemma NumberNamesCanonical()
    ensures Canonical("smallint") && Canonical("integer") && Canonical("bigint") && Canonical("real")
    ensures Canonical("double precision")
  {
    WordCanonical("smallint");
    WordCanonical("integer");
    WordCanonical("bigint");
    WordCanonical("real");
    JoinCanonical("double", "precision", "double precision");
  }

  lemma OtherNamesCanonical()
    ensures Canonical("boolean") && Canonical("text") && Canonical("bytea") && Canonical("date")
  {
    WordCanonical("boolean");
    WordCanonical("text");
    WordCanonical("bytea");
    WordCanonical("date");
  }

  lemma PgNameCanonical(x: Scalar)
    ensures Canonical(PgName(x)) && PgName(x)[|PgName(x)| - 1] != ']'
  {
    NumberNamesCanonical();
    OtherNamesCanonical();
    LongWordsCanonical();
  }

  lemma LongNotNamed(t: string)
    requires |t| > 16
    ensures NamedType(t) == None && t != "numeric" && t != "decimal" && t != "timestamptz"
  {
  }

  /** Long texts that begin with a `t` are decided by the timestamp rules alone. */
  lemma OnlyTimestampRules(t: string)
    requires |t| > 16 && t[0] == 't'
    ensures NumericArgs(t) == None && !IsVarchar(t)
  {
    OtherStart(t, "numeric");
    OtherStart(t, "decimal");
    OtherStart(t, "varchar");
    OtherStart(t, "character varying");
    OtherStart(t, "char");
    OtherStart(t, "character");
    OtherStart(t, "bpchar");
  }

  lemma TzIsZoned(t: string)
    requires t == "timestamp with time zone"
    ensures Contains(t, "with time zone") && StartsWith(t, "timestamp")
  {
    assert t == "timestamp " + "with time zone";
    assert OccursAt(t, "with time zone", 10);
    assert t[..9] == "timestamp";
  }

  lemma TimestampTzScalar(t: string)
    requires t == "timestamp with time zone"
    ensures ScalarType(t) == Some(LogicalType("TIMESTAMP", false, t))
  {
    hide NamedType, NumericArgs, IsVarchar, Contains, StartsWith, IsTimestamp;
    LongNotNamed(t);
    OnlyTimestampRules(t);
    TzIsZoned(t);
  }

  lemma NoZonePhrase(t: string)
    requires t == "timestamp without time zone"
    ensures !Contains(t, "with time zone")
  {
    var sub := "with time zone";
    forall i: nat | i <= |t|
      ensures !OccursAt(t, sub, i)
    {
      if i + |sub| <= |t| {
        var w := t[i..i + |sub|];
        assert w[0] == t[i] && w[4] == t[i + 4];
        assert sub[0] == 'w' && sub[4] == ' ';
      }
    }
  }

  lemma NtzIsTimestamp(t: string)
    requires t == "timestamp without time zone"
    ensures IsTimestamp(t)
  {
    hide AfterPrecision;
    assert t[9..] == " without time zone" && t[..9] == "timestamp";
    PlainRest();
  }

  lemma PlainRest()
    ensures AfterPrecision(" without time zone") == " without time zone"
  {
    var u := " without time zone";
    assert u[1] == 'w' && u[1..][0] == 'w';
    assert SkipSpace(u) == u[1..];
  }

  lemma TimestampNtzScalar(t: string)
    requires t == "timestamp without time zone"
    ensures ScalarType(t) == Some(LogicalType("TIMESTAMP_NTZ", false, t))
  {
    hide NamedType, NumericArgs, IsVarchar, Contains, StartsWith, IsTimestamp;
    LongNotNamed(t);
    OnlyTimestampRules(t);
    NoZonePhrase(t);
    NtzIsTimestamp(t);
  }

  lemma PgNameScalar(x: Scalar)
    requires !x.Timestamp? && !x.TimestampNtz?
    ensures NamedType(PgName(x)) == Some(LogicalType(DeltaName(x), false, PgName(x)))
  {
  }

  lemma PgNameMaps(x: Scalar)
    ensures Canonical(PgName(x))
    ensures MapPgToDelta(PgName(x)) == Ok(LogicalType(DeltaName(x), false, PgName(x)))
  {
    hide Canonical, MapPgToDelta, NamedType, PatternType;
    PgNameCanonical(x);
    PgNameNotArray(x);
    match x {
      case Timestamp => TimestampTzScalar(PgName(x));
      case TimestampNtz => TimestampNtzScalar(PgName(x));
      case _ => PgNameScalar(x);
    }
    MapScalar(PgName(x), LogicalType(DeltaName(x), false, PgName(x)));
  }

  lemma PgNameNotArray(x: Scalar)
    ensures ArrayElement(PgName(x)) == None
  {
    hide Canonical;
    PgNameCanonical(x);
  }

  // ---- Every accepted Postgres type ----

  /** `a` and `b` agree, and `b` is lossless when `a` is. */
  predicate SameMapping(a: LogicalType, b: LogicalType) {
    a.deltaType == b.deltaType && a.reversePgType == b.reversePgType && (b.lossy ==> a.lossy)
  }

  /** Mapping the reverse type of `l` gives `l` again, up to a dropped `lossy` flag. */
  predicate Stable(l: LogicalType) {
    && Canonical(l.reversePgType)
    && MapPgToDelta(l.reversePgType).Ok?
    && SameMapping(l, MapPgToDelta(l.reversePgType).value)
  }

  lemma BareNumericMaps()
    ensures ScalarType("numeric") == Some(LogicalType("DECIMAL(38,18)", true, "numeric"))
    ensures Canonical("numeric") && ArrayElement("numeric") == None
  {
    WordCanonical("numeric");
  }

  lemma TimeMaps(t: string)
    requires t == "time"
    ensures ScalarType(t) == Some(LogicalType("STRING", true, t))
  {
    hide StartsWith;
    OtherStart(t, "numeric");
    OtherStart(t, "decimal");
    OtherStart(t, "varchar");
    OtherStart(t, "character varying");
    OtherStart(t, "char");
    OtherStart(t, "character");
    OtherStart(t, "bpchar");
    TooShort(t, "timestamp");
  }

  lemma TimeCanonical()
    ensures Canonical("time") && ArrayElement("time") == None
  {
    WordCanonical("time");
  }

  lemma BareNamesStable()
    ensures Stable(LogicalType("DECIMAL(38,18)", true, "numeric"))
    ensures Stable(LogicalType("STRING", true, "time"))
  {
    hide Canonical, ScalarType, MapPgToDelta, ArrayElement;
    BareNumericMaps();
    TimeCanonical();
    TimeMaps("time");
    MapScalar("numeric", LogicalType("DECIMAL(38,18)", true, "numeric"));
    MapScalar("time", LogicalType("STRING", true, "time"));
  }

  lemma MoneyText()
    ensures ParenPairText("DECIMAL", 19, 2) == "DECIMAL(19,2)"
    ensures ParenPairText("DECIMAL", 38, 18) == "DECIMAL(38,18)"
    ensures ParenPairText("numeric", 19, 2) == "numeric(19,2)"
  {
    assert Decimal(1) == "1" && Decimal(2) == "2" && Decimal(3) == "3";
    assert Decimal(19) == "19" && Decimal(38) == "38" && Decimal(18) == "18";
  }

  lemma NamedLossy(t: string)
    requires NamedType(t).Some? && NamedType(t).value.lossy
    ensures var l := NamedType(t).value;
      if l.deltaType == "DECIMAL(19,2)" then l.reversePgType == "numeric(19,2)"
      else DeltaName(ScalarOf(l.deltaType)) == l.deltaType && l.reversePgType == t
  {
  }

  lemma NamedLossless(t: string)
    requires NamedType(t).Some? && !NamedType(t).value.lossy
    ensures var l := NamedType(t).value; var x := ScalarOf(l.deltaType);
      l.deltaType != "DECIMAL(19,2)" && DeltaName(x) == l.deltaType && l.reversePgType == PgName(x)
  {
  }

  lemma NamedCases(t: string)
    requires NamedType(t).Some?
    ensures var l := NamedType(t).value;
      if l.deltaType == "DECIMAL(19,2)" then l.lossy && l.reversePgType == "numeric(19,2)"
      else
        var x := ScalarOf(l.deltaType);
        && DeltaName(x) == l.deltaType
        && (if l.lossy then l.reversePgType == t else l.reversePgType == PgName(x))
  {
    hide NamedType, ScalarOf, DeltaName, PgName;
    if NamedType(t).value.lossy {
      NamedLossy(t);
    } else {
      NamedLossless(t);
    }
  }

  lemma NamedStable(t: string, l: LogicalType)
    requires Canonical(t) && ArrayElement(t) == None && NamedType(t) == Some(l)
    ensures Stable(l)
  {
    NamedCases(t);
    MoneyText();
    CanonicalNumeric(19, 2);
    MapNumeric(19, 2);
    PgNameMaps(ScalarOf(l.deltaType));
    if l.lossy && l.deltaType != "DECIMAL(19,2)" {
      MapScalar(t, l);
    }
  }

  lemma PatternStable(t: string, l: LogicalType)
    requires PatternType(t) == Some(l)
    ensures Stable(l)
  {
    hide NumericArgs, IsVarchar, Contains, StartsWith, IsTimestamp, MapPgToDelta, Canonical;
    if NumericArgs(t).Some? {
      var p, s := ParseDecimal(NumericArgs(t).value.0), ParseDecimal(NumericArgs(t).value.1);
      CanonicalNumeric(p, s);
      MapNumeric(p, s);
    } else if t == "numeric" || t == "decimal" {
      BareNamesStable();
    } else if IsVarchar(t) {
      PgNameMaps(Str);
    } else if t == "timestamptz" || (Contains(t, "with time zone") && StartsWith(t, "timestamp")) {
      PgNameMaps(Timestamp);
    } else if IsTimestamp(t) {
      PgNameMaps(TimestampNtz);
    } else {
      BareNamesStable();
    }
  }

  lemma ScalarStable(t: string, l: LogicalType)
    requires Canonical(t) && ArrayElement(t) == None && ScalarType(t) == Some(l)
    ensures Stable(l)
  {
    if NamedType(t) == Some(l) {
      NamedStable(t, l);
    } else {
      PatternStable(t, l);
    }
  }

  lemma NormalizeCanonical(pgType: string)
    ensures Normalize(pgType) != "" ==> Canonical(Normalize(pgType))
    ensures Normalize(Normalize(pgType)) == Normalize(pgType)
  {
    SqueezeIsNormal(Lower(pgType));
    SqueezeNormal(Normalize(pgType));
  }

  /** The reverse type of an accepted type maps to the same Delta type and the same reverse type. */
  lemma {:induction false} ReverseTypeStable(pgType: string)
    requires MapPgToDelta(pgType).Ok?
    ensures Stable(MapPgToDelta(pgType).value)
    decreases |pgType|
  {
    var t := Normalize(pgType);
    NormalizeCanonical(pgType);
    match ArrayElement(t)
    case Some(e) =>
      ReverseTypeStable(e);
      var l := MapPgToDelta(e).value;
      CanonicalArray(l.reversePgType);
      MapArray(l.reversePgType);
    case None =>
      ScalarStable(t, MapPgToDelta(pgType).value);
  }

  /** What a binary number type holds. */
  datatype Width = Whole(bits: nat) | Floating(bits: nat)

  function PgWidth(t: string): Option<Width> {
    match t
    case "smallint" => Some(Whole(16))
    case "int2" => Some(Whole(16))
    case "integer" => Some(Whole(32))
    case "int" => Some(Whole(32))
    case "int4" => Some(Whole(32))
    case "bigint" => Some(Whole(64))
    case "int8" => Some(Whole(64))
    case "real" => Some(Floating(32))
    case "float4" => Some(Floating(32))
    case "double precision" => Some(Floating(64))
    case "float8" => Some(Floating(64))
    case _ => None
  }

  function DeltaWidth(x: Scalar): Option<Width> {
    match x
    case Short => Some(Whole(16))
    case Integer => Some(Whole(32))
    case Long => Some(Whole(64))
    case Float => Some(Floating(32))
    case Double => Some(Floating(64))
    case _ => None
  }

  lemma NamedWidth(t: string)
    requires PgWidth(t).Some?
    ensures t != "" && t[|t| - 1] != ']' && NamedType(t).Some? && !NamedType(t).value.lossy
    ensures DeltaWidth(ScalarOf(NamedType(t).value.deltaType)) == PgWidth(t)
  {
  }

  lemma PgNameWidth(x: Scalar)
    ensures DeltaWidth(x).Some? ==> PgWidth(PgName(x)) == DeltaWidth(x)
  {
  }

  /** Every spelling of a binary number type keeps its width and kind in Delta, and on the way back. */
  lemma WidthKept(pgType: string)
    requires PgWidth(Normalize(pgType)).Some?
    ensures MapPgToDelta(pgType).Ok?
    ensures var l := MapPgToDelta(pgType).value; var x := ScalarOf(l.deltaType);
      && l.deltaType == DeltaName(x) && DeltaWidth(x) == PgWidth(Normalize(pgType))
      && MapDeltaToPg(l.deltaType) == Ok(l.reversePgType) && PgWidth(l.reversePgType) == PgWidth(Normalize(pgType))
  {
    hide PgWidth, NamedType, ScalarOf, DeltaName, PgName, DeltaWidth, Normalize, PatternType;
    var t := Normalize(pgType);
    NamedWidth(t);
    NamedLossless(t);
    var x := ScalarOf(NamedType(t).value.deltaType);
    PgNameWidth(x);
    assert MapPgToDelta(pgType) == Ok(NamedType(t).value);
    DeltaRetraction(pgType);
  }

  /** Two spellings normalize alike exactly when they have the same words up to case. */
  lemma SameSpelling(a: string, b: string)
    ensures Normalize(a) == Normalize(b) <==> LowerAll(Words(a)) == LowerAll(Words(b))
  {
    hide Words, LowerAll;
    SqueezeByWords(Lower(a), Lower(b));
    WordsLower(a);
    WordsLower(b);
  }

  /** Spellings with the same words up to case have the same outcome, errors included. */
  lemma SpellingInsensitive(a: string, b: string)
    requires LowerAll(Words(a)) == LowerAll(Words(b))
    ensures MapPgToDelta(a) == MapPgToDelta(b)
    ensures MapPgToDelta(a) == MapPgToDelta(Normalize(a))
  {
    hide ArrayElement, ScalarType, Normalize, Words, LowerAll;
    SameSpelling(a, b);
    NormalizeCanonical(a);
  }

  /** The reverse type of an accepted type reconstructs to itself, and is lossless if the type was. */
  lemma RoundtripStable(pgType: string)
    requires RoundtripPg(pgType).Ok?
    ensures var (reverse, lossy) := RoundtripPg(pgType).value;
      RoundtripPg(reverse).Ok? && RoundtripPg(reverse).value.0 == reverse && (!lossy ==> !RoundtripPg(reverse).value.1)
  {
    hide MapPgToDelta;
    ReverseTypeStable(pgType);
  }

  // ---- Every produced Delta type ----

  /** `d` prints the Delta side of `l`, and its Postgres side as well when `l` is lossless. */
  predicate Prints(d: DeltaTree, l: LogicalType) {
    WithinPrecision(d) && DeltaText(d) == l.deltaType && (!l.lossy ==> PgText(d) == l.reversePgType)
  }

  lemma NamedTree(t: string, l: LogicalType) returns (d: DeltaTree)
    requires NamedType(t) == Some(l)
    ensures Prints(d, l)
  {
    MoneyText();
    NamedCases(t);
    d := if l.deltaType == "DECIMAL(19,2)" then DecimalTree(19, 2) else Plain(ScalarOf(l.deltaType));
  }

  lemma NumericTree(p: nat, s: nat) returns (d: DeltaTree)
    ensures Prints(d, NumericType(p, s))
  {
    d := if p <= MAX_PRECISION then DecimalTree(p, s)
         else DecimalTree(MAX_PRECISION, if s < MAX_PRECISION then s else MAX_PRECISION);
  }

  lemma PatternTree(t: string, l: LogicalType) returns (d: DeltaTree)
    requires PatternType(t) == Some(l)
    ensures Prints(d, l)
  {
    hide NumericArgs, IsVarchar, IsTimestamp, Contains, ParseDecimal;
    MoneyText();
    if NumericArgs(t).Some? {
      d := NumericTree(ParseDecimal(NumericArgs(t).value.0), ParseDecimal(NumericArgs(t).value.1));
    } else if t == "numeric" || t == "decimal" {
      d := DecimalTree(38, 18);
    } else if IsVarchar(t) {
      d := Plain(Str);
    } else if t == "timestamptz" || (Contains(t, "with time zone") && StartsWith(t, "timestamp")) {
      d := Plain(Timestamp);
    } else {
      d := if IsTimestamp(t) then Plain(TimestampNtz) else Plain(Str);
    }
  }

  /** Every produced Delta type prints a tree whose decimals fit Delta's 38 digits. */
  lemma {:induction false} ProducedTree(pgType: string) returns (d: DeltaTree)
    requires MapPgToDelta(pgType).Ok?
    ensures Prints(d, MapPgToDelta(pgType).value)
    decreases |pgType|
  {
    var t := Normalize(pgType);
    match ArrayElement(t)
    case Some(e) =>
      var element := ProducedTree(e);
      d := ArrayTree(element);
    case None =>
      var l := ScalarType(t).value;
      if NamedType(t).Some? {
        d := NamedTree(t, l);
      } else {
        d := PatternTree(t, l);
      }
  }

  lemma {:induction false} PgTextMaps(d: DeltaTree)
    requires WithinPrecision(d)
    ensures Canonical(PgText(d)) && MapPgToDelta(PgText(d)).Ok?
    ensures MapPgToDelta(PgText(d)).value.deltaType == DeltaText(d)
  {
    match d
    case Plain(x) => PgNameMaps(x);
    case DecimalTree(p, s) =>
      CanonicalNumeric(p, s);
      MapNumeric(p, s);
    case ArrayTree(e) =>
      PgTextMaps(e);
      CanonicalArray(PgText(e));
      MapArray(PgText(e));
  }

  lemma StripNothing(t: string)
    requires t != "" && !IsSpace(t[0]) && !IsSpace(t[|t| - 1])
    ensures Strip(t) == t
  {
  }

  lemma DeltaTextEnds(d: DeltaTree)
    ensures DeltaText(d) != "" && '\n' !in DeltaText(d)
    ensures !IsSpace(DeltaText(d)[0]) && !IsSpace(DeltaText(d)[|DeltaText(d)| - 1])
  {
    match d
    case Plain(x) =>
    case DecimalTree(p, s) =>
    case ArrayTree(e) => DeltaTextEnds(e);
  }

  lemma DeltaNameMaps(x: Scalar)
    ensures Upper(DeltaName(x)) == DeltaName(x) && NamedDelta(DeltaName(x)) == Some(PgName(x))
  {
  }

  lemma UpperPrefix(prefix: string, t: string)
    requires StartsWith(t, prefix) && forall i | 0 <= i < |prefix| :: !IsLower(prefix[i])
    ensures StartsWith(Upper(t), prefix)
  {
    assert forall i | 0 <= i < |prefix| :: t[i] == t[..|prefix|][i];
    assert Upper(t)[..|prefix|] == prefix;
  }

  lemma NotNamedDelta(up: string)
    requires |up| > 7 && (up[7] == '(' || (up[0] == 'A'))
    ensures NamedDelta(up) == None
  {
  }

  lemma DecimalTextMaps(x: string, y: string, t: string)
    requires AllDigits(x) && AllDigits(y) && t == "DECIMAL(" + x + "," + y + ")"
    ensures MapDeltaToPg(t) == Ok("numeric(" + x + "," + y + ")")
  {
    StripNothing(t);
    assert t[..7] == "DECIMAL";
    UpperPrefix("DECIMAL", t);
    assert Upper(t)[7] == '(';
    NotNamedDelta(Upper(t));
    assert t[7..] == "(" + x + "," + y + ")";
    ParenPairParses(x, y);
  }

  lemma ArrayTextMaps(inner: string, t: string)
    requires inner != "" && !IsSpace(inner[0]) && !IsSpace(inner[|inner| - 1]) && '\n' !in inner
    requires t == "ARRAY<" + inner + ">"
    ensures MapDeltaToPg(inner).Ok? ==> MapDeltaToPg(t) == Ok(MapDeltaToPg(inner).value + "[]")
  {
    StripNothing(t);
    StripNothing(inner);
    assert t[6..|t| - 1] == inner;
    assert Upper(t)[0] == 'A';
    OtherStart(Upper(t), "DECIMAL");
    NotNamedDelta(Upper(t));
    assert t[..6] == "ARRAY<";
    assert Upper("ARRAY<") == "ARRAY<";
  }

  lemma PlainTextMaps(x: Scalar)
    ensures MapDeltaToPg(DeltaText(Plain(x))) == Ok(PgText(Plain(x)))
  {
    DeltaTextEnds(Plain(x));
    StripNothing(DeltaName(x));
    DeltaNameMaps(x);
  }

  lemma DecimalTreeMaps(p: nat, s: nat)
    ensures MapDeltaToPg(DeltaText(DecimalTree(p, s))) == Ok(PgText(DecimalTree(p, s)))
  {
    var x, y := Decimal(p), Decimal(s);
    assert ParenPairText("numeric", p, s) == "numeric(" + x + "," + y + ")";
    DecimalTextMaps(x, y, ParenPairText("DECIMAL", p, s));
  }

  lemma {:induction false} DeltaTextMaps(d: DeltaTree)
    ensures MapDeltaToPg(DeltaText(d)) == Ok(PgText(d))
  {
    match d
    case Plain(x) => PlainTextMaps(x);
    case DecimalTree(p, s) => DecimalTreeMaps(p, s);
    case ArrayTree(e) =>
      DeltaTextEnds(e);
      DeltaTextMaps(e);
      ArrayTextMaps(DeltaText(e), DeltaText(d));
  }

  /** Forward, back and forward again lands on the same Delta type; lossless types come back verbatim. */
  lemma DeltaRetraction(pgType: string)
    requires MapPgToDelta(pgType).Ok?
    ensures var l := MapPgToDelta(pgType).value;
      && MapDeltaToPg(l.deltaType).Ok?
      && var back := MapDeltaToPg(l.deltaType).value;
      && MapPgToDelta(back).Ok?
      && MapPgToDelta(back).value.deltaType == l.deltaType
      && (!l.lossy ==> back == l.reversePgType)
  {
    var d := ProducedTree(pgType);
    DeltaTextMaps(d);
    PgTextMaps(d);
  }
}
