/** Postgres type strings to Delta type strings and back. */
module TypeMapping {
  import opened Wrappers
  import opened Text

  /** The part of a mapping that the sync directions act on. */
  datatype LogicalType = LogicalType(deltaType: string, lossy: bool, reversePgType: string)

  type Mapping = Result<LogicalType, string>

  const MAX_PRECISION := 38

  function Normalize(pgType: string): (r: string)
    ensures |r| <= |pgType|
  {
    Squeeze(Lower(pgType))
  }

  /** The element type text of `<element> [ ]`, the array suffix of a normalized type. */
  function ArrayElement(t: string): (r: Option<string>)
    ensures r.Some? ==> |r.value| < |t|
  {
    if t == "" || t[|t| - 1] != ']' then None
    else
      var u := RStrip(t[..|t| - 1]);
      if u == "" || u[|u| - 1] != '[' then None else Some(RStrip(u[..|u| - 1]))
  }

  function Native(deltaType: string, reversePgType: string): Option<LogicalType> {
    Some(LogicalType(deltaType, false, reversePgType))
  }

  function Encoded(deltaType: string, reversePgType: string): Option<LogicalType> {
    Some(LogicalType(deltaType, true, reversePgType))
  }

  /** The exact-name tables: lossless types first, then types with an agreed encoding. */
  function NamedType(t: string): Option<LogicalType> {
    match t
    case "boolean" => Native("BOOLEAN", "boolean")
    case "bool" => Native("BOOLEAN", "boolean")
    case "smallint" => Native("SHORT", "smallint")
    case "int2" => Native("SHORT", "smallint")
    case "integer" => Native("INTEGER", "integer")
    case "int" => Native("INTEGER", "integer")
    case "int4" => Native("INTEGER", "integer")
    case "bigint" => Native("LONG", "bigint")
    case "int8" => Native("LONG", "bigint")
    case "real" => Native("FLOAT", "real")
    case "float4" => Native("FLOAT", "real")
    case "double precision" => Native("DOUBLE", "double precision")
    case "float8" => Native("DOUBLE", "double precision")
    case "text" => Native("STRING", "text")
    case "date" => Native("DATE", "date")
    case "bytea" => Native("BINARY", "bytea")
    case "jsonb" => Encoded("STRING", "jsonb")
    case "json" => Encoded("STRING", "json")
    case "uuid" => Encoded("STRING", "uuid")
    case "interval" => Encoded("LONG", "interval")
    case "cidr" => Encoded("STRING", "cidr")
    case "inet" => Encoded("STRING", "inet")
    case "macaddr" => Encoded("STRING", "macaddr")
    case "money" => Encoded("DECIMAL(19,2)", "numeric(19,2)")
    case "tsvector" => Encoded("STRING", "tsvector")
    case _ => None
  }

  /** `\(\s*(\d+)\s*,\s*(\d+)\s*\)$`: the two digit groups. */
  function ParenPair(u: string): (r: Option<(string, string)>)
    ensures r.Some? ==> AllDigits(r.value.0) && AllDigits(r.value.1)
  {
    if u == "" || u[0] != '(' then None
    else
      var a := SkipSpace(u[1..]);
      var n := DigitRun(a);
      var b := SkipSpace(a[n..]);
      if n == 0 || b == "" || b[0] != ',' then None
      else
        var c := SkipSpace(b[1..]);
        var m := DigitRun(c);
        if m > 0 && SkipSpace(c[m..]) == ")" then Some((a[..n], c[..m])) else None
  }

  /** The parameters of `numeric(p,s)` or `decimal(p,s)`. */
  function NumericArgs(t: string): (r: Option<(string, string)>)
    ensures r.Some? ==> AllDigits(r.value.0) && AllDigits(r.value.1)
  {
    if StartsWith(t, "numeric") || StartsWith(t, "decimal") then ParenPair(SkipSpace(t[7..])) else None
  }

  function ParenPairText(name: string, p: nat, s: nat): string {
    name + "(" + Decimal(p) + "," + Decimal(s) + ")"
  }

  function NumericType(p: nat, s: nat): LogicalType {
    if p > MAX_PRECISION then
      LogicalType(ParenPairText("DECIMAL", MAX_PRECISION, if s < MAX_PRECISION then s else MAX_PRECISION),
                  true, ParenPairText("numeric", p, s))
    else
      LogicalType(ParenPairText("DECIMAL", p, s), false, ParenPairText("numeric", p, s))
  }

  /** `(?:\(\s*\d+\s*\))?$` */
  predicate OptionalLength(u: string) {
    u == "" ||
    (u[0] == '(' &&
     var a := SkipSpace(u[1..]);
     DigitRun(a) > 0 && SkipSpace(a[DigitRun(a)..]) == ")")
  }

  predicate IsLimited(t: string, name: string) {
    StartsWith(t, name) && OptionalLength(SkipSpace(t[|name|..]))
  }

  predicate IsVarchar(t: string) {
    || IsLimited(t, "varchar") || IsLimited(t, "character varying") || IsLimited(t, "char")
    || IsLimited(t, "character") || IsLimited(t, "bpchar")
  }

  /** The rest of a timestamp type after an optional `\s*\(\d+\)`. */
  function AfterPrecision(u: string): string {
    var a := SkipSpace(u);
    if a == "" || a[0] != '(' then u
    else
      var n := DigitRun(a[1..]);
      var b := a[1..][n..];
      if n > 0 && b != "" && b[0] == ')' then b[1..] else u
  }

  /** Timestamps with an optional precision and time-zone phrase; `t` has single blanks only. */
  predicate IsTimestamp(t: string) {
    StartsWith(t, "timestamp") &&
    AfterPrecision(t[9..]) in ["", " with time zone", " without time zone"]
  }

  /** The rules for parameterized and aliased names, in the order the mapping tries them. */
  function PatternType(t: string): Option<LogicalType> {
    if NumericArgs(t).Some? then
      var (p, s) := NumericArgs(t).value;
      Some(NumericType(ParseDecimal(p), ParseDecimal(s)))
    else if t == "numeric" || t == "decimal" then Encoded("DECIMAL(38,18)", "numeric")
    else if IsVarchar(t) then Native("STRING", "text")
    else if t == "timestamptz" || (Contains(t, "with time zone") && StartsWith(t, "timestamp")) then
      Native("TIMESTAMP", "timestamp with time zone")
    else if IsTimestamp(t) then Native("TIMESTAMP_NTZ", "timestamp without time zone")
    else if t == "time" || t == "timetz" || t == "time with time zone" || t == "time without time zone" then
      Encoded("STRING", "time")
    else None
  }

  function ScalarType(t: string): Option<LogicalType> {
    if NamedType(t).Some? then NamedType(t) else PatternType(t)
  }

  function MapPgToDelta(pgType: string): Mapping
    decreases |pgType|
  {
    var t := Normalize(pgType);
    if t == "" then Err("empty postgres type")
    else
      match ArrayElement(t)
      case Some(e) =>
        var element := MapPgToDelta(e);
        if element.Ok? then
          Ok(LogicalType("ARRAY<" + element.value.deltaType + ">", true, element.value.reversePgType + "[]"))
        else element
      case None =>
        match ScalarType(t)
        case Some(l) => Ok(l)
        case None => Err("no mapping defined for postgres type")
  }

  function RoundtripPg(pgType: string): Result<(string, bool), string> {
    match MapPgToDelta(pgType)
    case Ok(l) => Ok((l.reversePgType, l.lossy))
    case Err(e) => Err(e)
  }

  function NamedDelta(up: string): Option<string> {
    match up
    case "BOOLEAN" => Some("boolean")
    case "SHORT" => Some("smallint")
    case "BYTE" => Some("smallint")
    case "INTEGER" => Some("integer")
    case "INT" => Some("integer")
    case "LONG" => Some("bigint")
    case "BIGINT" => Some("bigint")
    case "FLOAT" => Some("real")
    case "DOUBLE" => Some("double precision")
    case "STRING" => Some("text")
    case "BINARY" => Some("bytea")
    case "DATE" => Some("date")
    case "TIMESTAMP" => Some("timestamp with time zone")
    case "TIMESTAMP_NTZ" => Some("timestamp without time zone")
    case _ => None
  }

  /** The text between `ARRAY<` and the final `>`, stripped; the pattern's dot excludes newlines. */
  function DeltaElement(t: string): (r: Option<string>)
    ensures r.Some? ==> |r.value| < |t|
  {
    if |t| < 8 || Upper(t[..6]) != "ARRAY<" || t[|t| - 1] != '>' then None
    else
      var inner := Strip(t[6..|t| - 1]);
      if inner == "" || '\n' in inner then None else Some(inner)
  }

  function MapDeltaToPg(deltaType: string): Result<string, string>
    decreases |deltaType|
  {
    var t := Strip(deltaType);
    var up := Upper(t);
    if NamedDelta(up).Some? then Ok(NamedDelta(up).value)
    else
      var args := if StartsWith(up, "DECIMAL") then ParenPair(t[7..]) else None;
      if args.Some? then Ok("numeric(" + args.value.0 + "," + args.value.1 + ")")
      else
        match DeltaElement(t)
        case Some(e) =>
          var element := MapDeltaToPg(e);
          if element.Ok? then Ok(element.value + "[]") else element
        case None =>
          if StartsWith(up, "MAP<") || StartsWith(up, "STRUCT<") then Ok("jsonb")
          else Err("no reverse mapping for delta type")
  }
}
