/** Which spellings are accepted and what each of them becomes, against a table of its own. */
module TypeKinds {
  import opened Wrappers
  import opened Text
  import opened TypeMapping
  import opened TypeRoundTrip

  // ---- The table ----

  ghost predicate Blanks(s: string) {
    forall i | 0 <= i < |s| :: IsSpace(s[i])
  }

  /** `name`, or `name(n)` with blanks anywhere around the parts. */
  ghost predicate Limited(t: string, name: string) {
    || (exists a :: Blanks(a) && t == name + a)
    || exists a, b, d, c :: WithLength(t, name, a, b, d, c)
  }

  ghost predicate WithLength(t: string, name: string, a: string, b: string, d: string, c: string) {
    Blanks(a) && Blanks(b) && AllDigits(d) && Blanks(c) && t == name + (a + ("(" + (b + (d + (c + ")")))))
  }

  /** The character types, with or without a length. */
  ghost predicate Characters(t: string) {
    || Limited(t, "varchar") || Limited(t, "character varying") || Limited(t, "char")
    || Limited(t, "character") || Limited(t, "bpchar")
  }

  /** `numeric(x,y)` or `decimal(x,y)`, with blanks anywhere around the parts. */
  ghost predicate Numbered(t: string, x: string, y: string) {
    AllDigits(x) && AllDigits(y) &&
    exists a, b, c, d, e :: NumberedWith(t, x, y, a, b, c, d, e)
  }

  ghost predicate NumberedWith(t: string, x: string, y: string, a: string, b: string, c: string, d: string, e: string) {
    && Blanks(a) && Blanks(b) && Blanks(c) && Blanks(d) && Blanks(e)
    && var rest := a + ("(" + (b + (x + (c + ("," + (d + (y + (e + ")"))))))));
       t == "numeric" + rest || t == "decimal" + rest
  }

  /** Timestamps that carry a time zone. */
  ghost predicate Zoned(t: string) {
    t == "timestamptz" || (exists x, y :: t == x + "with time zone" + y && exists z :: t == "timestamp" + z)
  }

  /** Timestamps that carry none, with or without a precision; `t` has single blanks only. */
  ghost predicate Unzoned(t: string) {
    exists p, z :: Precision(p) && z in {"", " without time zone"} && t == "timestamp" + (p + z)
  }

  ghost predicate Precision(p: string) {
    p == "" || exists a, d :: Blanks(a) && AllDigits(d) && p == a + ("(" + (d + ")"))
  }

  /** What a number type with `p` digits, `s` of them after the point, becomes. */
  function NumberTarget(p: nat, s: nat): LogicalType {
    var pg := "numeric(" + Decimal(p) + "," + Decimal(s) + ")";
    if p <= 38 then LogicalType("DECIMAL(" + Decimal(p) + "," + Decimal(s) + ")", false, pg)
    else LogicalType("DECIMAL(38," + Decimal(if s <= 38 then s else 38) + ")", true, pg)
  }

  /** The types known by name: whole numbers, floating-point numbers, text, bytes, days, and encoded types. */
  ghost predicate NameMeans(t: string, l: LogicalType) {
    || (t in {"boolean", "bool"} && l == LogicalType("BOOLEAN", false, "boolean"))
    || (t in {"smallint", "int2"} && l == LogicalType("SHORT", false, "smallint"))
    || (t in {"integer", "int", "int4"} && l == LogicalType("INTEGER", false, "integer"))
    || (t in {"bigint", "int8"} && l == LogicalType("LONG", false, "bigint"))
    || (t in {"real", "float4"} && l == LogicalType("FLOAT", false, "real"))
    || (t in {"double precision", "float8"} && l == LogicalType("DOUBLE", false, "double precision"))
    || (t == "text" && l == LogicalType("STRING", false, "text"))
    || (t == "date" && l == LogicalType("DATE", false, "date"))
    || (t == "bytea" && l == LogicalType("BINARY", false, "bytea"))
    || (t in {"json", "jsonb", "uuid", "inet", "cidr", "macaddr", "tsvector"} && l == LogicalType("STRING", true, t))
    || (t == "interval" && l == LogicalType("LONG", true, "interval"))
    || (t == "money" && l == LogicalType("DECIMAL(19,2)", true, "numeric(19,2)"))
  }

  /** The other types: characters, numbers, timestamps and times of day. */
  ghost predicate PatternMeans(t: string, l: LogicalType) {
    || (Characters(t) && l == LogicalType("STRING", false, "text"))
    || (t in {"numeric", "decimal"} && l == LogicalType("DECIMAL(38,18)", true, "numeric"))
    || (exists x, y :: Numbered(t, x, y) && l == NumberTarget(ParseDecimal(x), ParseDecimal(y)))
    || (Zoned(t) && l == LogicalType("TIMESTAMP", false, "timestamp with time zone"))
    || (Unzoned(t) && l == LogicalType("TIMESTAMP_NTZ", false, "timestamp without time zone"))
    || (t in {"time", "timetz", "time with time zone", "time without time zone"} &&
        l == LogicalType("STRING", true, "time"))
  }

  ghost predicate Means(t: string, l: LogicalType) {
    NameMeans(t, l) || PatternMeans(t, l)
  }

  // ---- Parts of a text ----

  lemma {:induction false} SkipBlanks(a: string, u: string)
    requires Blanks(a) && (u == "" || !IsSpace(u[0]))
    ensures SkipSpace(a + u) == u
    decreases |a|
  {
    if a == "" {
      assert a + u == u;
    } else {
      assert (a + u)[1..] == a[1..] + u;
      SkipBlanks(a[1..], u);
    }
  }

  lemma {:induction false} Skipped(s: string) returns (a: string)
    ensures Blanks(a) && s == a + SkipSpace(s) && (SkipSpace(s) == "" || !IsSpace(SkipSpace(s)[0]))
    decreases |s|
  {
    if s != "" && IsSpace(s[0]) {
      var b := Skipped(s[1..]);
      a := [s[0]] + b;
    } else {
      a := "";
    }
  }

  lemma Rest(name: string, u: string)
    ensures StartsWith(name + u, name) && (name + u)[|name|..] == u
  {
  }

  lemma RestOf(t: string, name: string)
    requires StartsWith(t, name)
    ensures t == name + t[|name|..]
  {
  }

  // ---- Character types ----

  lemma LimitedExactly(t: string, name: string)
    ensures IsLimited(t, name) <==> Limited(t, name)
  {
    if IsLimited(t, name) {
      RestOf(t, name);
      LengthParts(t, name);
    }
    if a :| Blanks(a) && t == name + a {
      Rest(name, a);
      SkipBlanks(a, "");
      assert a + "" == a;
    }
    if a, b, d, c :| WithLength(t, name, a, b, d, c) {
      var u := "(" + (b + (d + (c + ")")));
      Rest(name, a + u);
      SkipBlanks(a, u);
      LengthParses(b, d, c);
    }
  }

  lemma LengthParses(b: string, d: string, c: string)
    requires Blanks(b) && AllDigits(d) && Blanks(c)
    ensures OptionalLength("(" + (b + (d + (c + ")"))))
  {
    var u := "(" + (b + (d + (c + ")")));
    assert u[1..] == b + (d + (c + ")"));
    assert IsDigit(d[0]) && (d + (c + ")"))[0] == d[0];
    SkipBlanks(b, d + (c + ")"));
    assert !IsDigit((c + ")")[0]);
    DigitRunExact(d, c + ")");
    SkipBlanks(c, ")");
  }

  lemma LengthParts(t: string, name: string)
    requires IsLimited(t, name)
    ensures Limited(t, name)
  {
    RestOf(t, name);
    var s := t[|name|..];
    var a := Skipped(s);
    var u := SkipSpace(s);
    if u == "" {
      assert t == name + a;
    } else {
      var b := Skipped(u[1..]);
      var v := SkipSpace(u[1..]);
      var n := DigitRun(v);
      var c := Skipped(v[n..]);
      assert v == v[..n] + v[n..];
      assert u == "(" + u[1..];
      assert WithLength(t, name, a, b, v[..n], c);
    }
  }

  lemma CharactersExactly(t: string)
    ensures IsVarchar(t) <==> Characters(t)
  {
    hide IsLimited, Limited;
    LimitedExactly(t, "varchar");
    LimitedExactly(t, "character varying");
    LimitedExactly(t, "char");
    LimitedExactly(t, "character");
    LimitedExactly(t, "bpchar");
  }

  // ---- Numbers with precision and scale ----

  lemma PairParses(b: string, x: string, c: string, d: string, y: string, e: string)
    requires Blanks(b) && AllDigits(x) && Blanks(c) && Blanks(d) && AllDigits(y) && Blanks(e)
    ensures ParenPair("(" + (b + (x + (c + ("," + (d + (y + (e + ")")))))))) == Some((x, y))
  {
    var tail := d + (y + (e + ")"));
    var mid := c + ("," + tail);
    var u := "(" + (b + (x + mid));
    assert u[1..] == b + (x + mid);
    assert IsDigit(x[0]) && (x + mid)[0] == x[0] && IsDigit(y[0]) && (y + (e + ")"))[0] == y[0];
    SkipBlanks(b, x + mid);
    assert !IsDigit(mid[0]);
    DigitRunExact(x, mid);
    SkipBlanks(c, "," + tail);
    assert ("," + tail)[1..] == tail;
    SkipBlanks(d, y + (e + ")"));
    assert !IsDigit((e + ")")[0]);
    DigitRunExact(y, e + ")");
    SkipBlanks(e, ")");
  }

  lemma PairParts(u: string) returns (b: string, c: string, d: string, e: string)
    requires ParenPair(u).Some?
    ensures var (x, y) := ParenPair(u).value;
      && Blanks(b) && Blanks(c) && Blanks(d) && Blanks(e)
      && u == "(" + (b + (x + (c + ("," + (d + (y + (e + ")")))))))
  {
    hide IsSpace, Blanks, AllDigits, DigitRun, SkipSpace;
    b := Skipped(u[1..]);
    var v := SkipSpace(u[1..]);
    var n := DigitRun(v);
    c := Skipped(v[n..]);
    var w := SkipSpace(v[n..]);
    d := Skipped(w[1..]);
    var z := SkipSpace(w[1..]);
    var m := DigitRun(z);
    e := Skipped(z[m..]);
    CutAt(v, n);
    CutAt(z, m);
    CutFirst(u, '(');
    CutFirst(w, ',');
  }

  lemma CutAt(s: string, n: nat)
    requires n <= |s|
    ensures s == s[..n] + s[n..]
  {
  }

  lemma CutFirst(s: string, c: char)
    requires s != "" && s[0] == c
    ensures s == [c] + s[1..]
  {
  }

  lemma NumberedParses(t: string, x: string, y: string)
    requires Numbered(t, x, y)
    ensures NumericArgs(t) == Some((x, y))
  {
    hide ParenPair;
    var a, b, c, d, e :| NumberedWith(t, x, y, a, b, c, d, e);
    var u := "(" + (b + (x + (c + ("," + (d + (y + (e + ")")))))));
    PairParses(b, x, c, d, y, e);
    SkipBlanks(a, u);
    assert t[7..] == a + u;
    if t == "numeric" + (a + u) {
      Rest("numeric", a + u);
    } else {
      Rest("decimal", a + u);
    }
  }

  lemma NumberedParts(t: string)
    requires NumericArgs(t).Some?
    ensures Numbered(t, NumericArgs(t).value.0, NumericArgs(t).value.1)
  {
    hide ParenPair;
    var u := SkipSpace(t[7..]);
    var a := Skipped(t[7..]);
    var b, c, d, e := PairParts(u);
    if StartsWith(t, "numeric") {
      RestOf(t, "numeric");
    } else {
      RestOf(t, "decimal");
    }
    assert NumberedWith(t, NumericArgs(t).value.0, NumericArgs(t).value.1, a, b, c, d, e);
  }

  // ---- Timestamps ----

  lemma ZonedExactly(t: string)
    ensures Zoned(t) <==> t == "timestamptz" || (Contains(t, "with time zone") && StartsWith(t, "timestamp"))
  {
    var phrase := "with time zone";
    if i: nat :| i <= |t| && OccursAt(t, phrase, i) {
      assert t == t[..i] + phrase + t[i + |phrase|..];
    }
    if StartsWith(t, "timestamp") {
      RestOf(t, "timestamp");
    }
    if x, y :| t == x + phrase + y {
      assert OccursAt(t, phrase, |x|);
    }
    if z :| t == "timestamp" + z {
      Rest("timestamp", z);
    }
  }

  lemma PrecisionParses(p: string, z: string)
    requires Precision(p) && z in {"", " without time zone"}
    ensures AfterPrecision(p + z) == z
  {
    if p == "" {
      assert p + z == z;
      if z != "" {
        PlainRest();
      }
    } else {
      var a, d :| Blanks(a) && AllDigits(d) && p == a + ("(" + (d + ")"));
      var u := "(" + (d + (")" + z));
      assert p + z == a + u;
      SkipBlanks(a, u);
      assert u[1..] == d + (")" + z);
      DigitRunExact(d, ")" + z);
      assert (")" + z)[1..] == z;
    }
  }

  /** A precision in parentheses at the front of `v`. */
  lemma ClosedParts(v: string) returns (d: string, w: string)
    requires v != "" && v[0] == '(' && DigitRun(v[1..]) > 0
    requires var rest := v[1..][DigitRun(v[1..])..]; rest != "" && rest[0] == ')'
    ensures AllDigits(d) && w == v[1..][DigitRun(v[1..])..][1..] && v == "(" + (d + (")" + w))
  {
    hide AllDigits, DigitRun;
    var n := DigitRun(v[1..]);
    d, w := v[1..][..n], v[1..][n..][1..];
    assert v[1..][n..] == ")" + w;
    assert v[1..] == d + v[1..][n..];
    assert v == "(" + v[1..];
  }

  lemma PrecisionParts(u: string) returns (p: string)
    ensures Precision(p) && u == p + AfterPrecision(u)
  {
    hide AllDigits, DigitRun, SkipSpace, IsSpace, Blanks;
    p := "";
    var v := SkipSpace(u);
    var a := Skipped(u);
    if v != "" && v[0] == '(' {
      var n := DigitRun(v[1..]);
      var rest := v[1..][n..];
      if n > 0 && rest != "" && rest[0] == ')' {
        var d, w := ClosedParts(v);
        p := a + ("(" + (d + ")"));
        Regroup(a, d, w);
        assert AfterPrecision(u) == w;
      }
    }
  }

  lemma Regroup(a: string, d: string, w: string)
    ensures a + ("(" + (d + (")" + w))) == (a + ("(" + (d + ")"))) + w
  {
  }

  lemma WithZone(t: string, p: string)
    requires t == "timestamp" + (p + " with time zone")
    ensures Zoned(t)
  {
    assert t == ("timestamp" + p + " ") + "with time zone" + "";
  }

  /** No `w` before the phrase that says there is no zone, and that one goes on differently. */
  lemma UnzonedNotZoned(t: string)
    requires Unzoned(t)
    ensures !Zoned(t)
  {
    hide Precision;
    var p, z :| Precision(p) && z in {"", " without time zone"} && t == "timestamp" + (p + z);
    NoW(p);
    NotAlias(p, z);
    forall x: string, y: string
      ensures t != x + "with time zone" + y
    {
      NoZoneAt(p, z, x, y);
    }
  }

  lemma NotAlias(p: string, z: string)
    requires z in {"", " without time zone"} && (p != "" ==> p[0] != 't')
    ensures "timestamp" + (p + z) != "timestamptz"
  {
    var u := p + z;
    assert ("timestamp" + u)[9..] == u && "timestamptz"[9..] == "tz";
    assert u != "" ==> u[0] != 't';
  }

  lemma NoZoneAt(p: string, z: string, x: string, y: string)
    requires z in {"", " without time zone"} && forall j | 0 <= j < |p| :: p[j] != 'w'
    ensures "timestamp" + (p + z) != x + "with time zone" + y
  {
    PhraseAt(x, y);
    NoPhraseAt(p, z, |x|);
  }

  predicate WithAt(t: string, i: nat) {
    i + 4 < |t| && t[i] == 'w' && t[i + 4] == ' '
  }

  lemma NoPhraseAt(p: string, z: string, i: nat)
    requires z in {"", " without time zone"} && forall j | 0 <= j < |p| :: p[j] != 'w'
    ensures !WithAt("timestamp" + (p + z), i)
  {
    var t, n := "timestamp" + (p + z), 9 + |p|;
    if i + 4 < |t| {
      assert i < 9 ==> t[i] == "timestamp"[i];
      assert 9 <= i < n ==> t[i] == p[i - 9];
      assert n <= i ==> t[i] == z[i - n] && t[i + 4] == z[i + 4 - n];
    }
  }

  lemma PhraseAt(x: string, y: string)
    ensures WithAt(x + "with time zone" + y, |x|)
  {
  }

  lemma NoW(p: string)
    requires Precision(p)
    ensures (forall j | 0 <= j < |p| :: p[j] != 'w') && (p != "" ==> p[0] != 't')
  {
    if p != "" {
      var a, d :| Blanks(a) && AllDigits(d) && p == a + ("(" + (d + ")"));
      forall j | 0 <= j < |p|
        ensures p[j] != 'w'
      {
        if j < |a| {
          assert p[j] == a[j];
        } else if |a| < j <= |a| + |d| {
          assert p[j] == d[j - |a| - 1];
        }
      }
    }
  }

  lemma UnzonedExactly(t: string)
    ensures !Zoned(t) ==> (IsTimestamp(t) <==> Unzoned(t))
    ensures Unzoned(t) ==> IsTimestamp(t)
  {
    hide AfterPrecision;
    if IsTimestamp(t) && !Zoned(t) {
      RestOf(t, "timestamp");
      var p := PrecisionParts(t[9..]);
      var z := AfterPrecision(t[9..]);
      if z == " with time zone" {
        WithZone(t, p);
      }
      assert t == "timestamp" + (p + z);
    }
    if p, z :| Precision(p) && z in {"", " without time zone"} && t == "timestamp" + (p + z) {
      Rest("timestamp", p + z);
      PrecisionParses(p, z);
    }
  }

  // ---- All together ----

  lemma NameExactly(t: string, l: LogicalType)
    ensures NamedType(t) == Some(l) <==> NameMeans(t, l)
  {
  }

  /** The first two letters of the types that are not known by name alone. */
  predicate Head(t: string, a: char, b: char) {
    |t| >= 2 && t[0] == a && t[1] == b
  }

  predicate PatternHead(t: string) {
    || Head(t, 'v', 'a') || Head(t, 'c', 'h') || Head(t, 'b', 'p')
    || Head(t, 'n', 'u') || Head(t, 'd', 'e') || Head(t, 't', 'i')
  }

  lemma NameHead(t: string)
    ensures NamedType(t).Some? ==> !PatternHead(t)
  {
  }

  lemma StartHead(t: string, p: string)
    requires StartsWith(t, p) && |p| >= 2
    ensures Head(t, p[0], p[1])
  {
    assert t[0] == t[..|p|][0] && t[1] == t[..|p|][1];
  }

  lemma CharactersHead(t: string)
    ensures IsVarchar(t) ==> Head(t, 'v', 'a') || Head(t, 'c', 'h') || Head(t, 'b', 'p')
  {
    hide StartsWith, OptionalLength;
    if StartsWith(t, "varchar") {
      StartHead(t, "varchar");
    }
    if StartsWith(t, "character varying") {
      StartHead(t, "character varying");
    }
    if StartsWith(t, "char") {
      StartHead(t, "char");
    }
    if StartsWith(t, "character") {
      StartHead(t, "character");
    }
    if StartsWith(t, "bpchar") {
      StartHead(t, "bpchar");
    }
  }

  lemma NumericHead(t: string)
    ensures NumericArgs(t).Some? ==> (Head(t, 'n', 'u') || Head(t, 'd', 'e')) && t != "numeric" && t != "decimal"
  {
    hide StartsWith, ParenPair;
    assert SkipSpace("") == "" && "numeric"[7..] == "" && "decimal"[7..] == "";
    assert ParenPair("") == None by { EmptyPair(); }
    if StartsWith(t, "numeric") {
      StartHead(t, "numeric");
    }
    if StartsWith(t, "decimal") {
      StartHead(t, "decimal");
    }
  }

  lemma EmptyPair()
    ensures ParenPair("") == None
  {
  }

  /** Timestamps and times begin alike and differ in their fifth letter. */
  lemma TimestampHead(t: string)
    requires StartsWith(t, "timestamp")
    ensures Head(t, 't', 'i') && |t| > 4 && t[4] == 's'
  {
    StartHead(t, "timestamp");
    assert t[4] == t[..9][4];
  }

  /** The rules for one family at a time: at most one of them fits a text. */
  lemma OneFamily(t: string)
    ensures NumericArgs(t).Some? ==> !IsVarchar(t)
    ensures t in {"numeric", "decimal"} ==> NumericArgs(t) == None && !IsVarchar(t) && PatternHead(t)
    ensures Zoned(t) || IsTimestamp(t) ==> NumericArgs(t) == None && !IsVarchar(t) && PatternHead(t)
    ensures Zoned(t) || IsTimestamp(t) ==> t !in {"numeric", "decimal"}
    ensures t in {"time", "timetz", "time with time zone", "time without time zone"} ==>
      && NumericArgs(t) == None && !IsVarchar(t) && !Zoned(t) && !IsTimestamp(t)
      && PatternHead(t) && t !in {"numeric", "decimal"}
    ensures IsVarchar(t) ==> PatternHead(t) && t !in {"numeric", "decimal"}
    ensures NumericArgs(t).Some? ==> PatternHead(t)
  {
    hide NumericArgs, IsVarchar, IsTimestamp, StartsWith;
    CharactersHead(t);
    NumericHead(t);
    ZonedStarts(t);
    if StartsWith(t, "timestamp") {
      TimestampHead(t);
    }
  }

  lemma ZonedStarts(t: string)
    ensures Zoned(t) || IsTimestamp(t) ==> StartsWith(t, "timestamp")
  {
    if t == "timestamptz" {
      assert t[..9] == "timestamp";
    }
    if z :| t == "timestamp" + z {
      Rest("timestamp", z);
    }
  }

  lemma NumberTargetIs(p: nat, s: nat)
    ensures NumericType(p, s) == NumberTarget(p, s)
  {
    MoneyText();
    var least := if s <= 38 then s else 38;
    assert ParenPairText("DECIMAL", 38, least) == "DECIMAL(38," + Decimal(least) + ")" by {
      assert "DECIMAL" + "(" + "38" + "," == "DECIMAL(38,";
    }
    assert "DECIMAL" + "(" == "DECIMAL(" && "numeric" + "(" == "numeric(";
  }

  lemma PatternExactly(t: string, l: LogicalType)
    ensures PatternType(t) == Some(l) <==> PatternMeans(t, l)
  {
    hide NumericArgs, IsVarchar, Contains, StartsWith, IsTimestamp, Characters, Zoned, Unzoned;
    hide NumberTarget, NumericType, ParseDecimal;
    OneFamily(t);
    CharactersExactly(t);
    ZonedExactly(t);
    UnzonedExactly(t);
    if Unzoned(t) {
      UnzonedNotZoned(t);
    }
    NumbersExactly(t, l);
  }

  lemma NumbersExactly(t: string, l: LogicalType)
    ensures (exists x, y :: Numbered(t, x, y) && l == NumberTarget(ParseDecimal(x), ParseDecimal(y))) <==>
      NumericArgs(t).Some? &&
      l == NumericType(ParseDecimal(NumericArgs(t).value.0), ParseDecimal(NumericArgs(t).value.1))
  {
    hide NumericArgs, Numbered, NumberTarget, NumericType, ParseDecimal;
    if NumericArgs(t).Some? {
      var (x, y) := NumericArgs(t).value;
      NumberedParts(t);
      NumberTargetIs(ParseDecimal(x), ParseDecimal(y));
    }
    forall x, y | Numbered(t, x, y)
      ensures NumericArgs(t) == Some((x, y))
    {
      NumberedParses(t, x, y);
    }
  }

  /**
   * A type text that is no array is accepted exactly when the table lists its spelling, and becomes exactly what the
   * table says: the kind of content, whether it loses something, and the type it comes back as.
   */
  lemma KindsExactly(pgType: string, l: LogicalType)
    requires ArrayElement(Normalize(pgType)) == None
    ensures MapPgToDelta(pgType) == Ok(l) <==> Means(Normalize(pgType), l)
  {
    hide NamedType, PatternType, NameMeans, PatternMeans, Normalize, ArrayElement;
    var t := Normalize(pgType);
    NameExactly(t, l);
    PatternExactly(t, l);
    KindsApart(t, l);
  }

  /** The two rules never disagree, and neither knows the empty text. */
  lemma KindsApart(t: string, l: LogicalType)
    ensures NamedType(t).Some? ==> PatternType(t) == None
    ensures t == "" ==> NamedType(t) == None && PatternType(t) == None
  {
    hide NumericArgs, IsVarchar, Contains, StartsWith, IsTimestamp, NumericType, ParseDecimal, Zoned;
    NameHead(t);
    OneFamily(t);
    CharactersHead(t);
    NumericHead(t);
    ZonedExactly(t);
  }

  // ---- Arrays ----

  /** `<e>[]`, with blanks before and between the brackets; `e` ends with none. */
  ghost predicate ArrayOf(t: string, e: string) {
    (e == "" || !IsSpace(e[|e| - 1])) && exists a, b :: ArrayOfWith(t, e, a, b)
  }

  ghost predicate ArrayOfWith(t: string, e: string, a: string, b: string) {
    Blanks(a) && Blanks(b) && t == e + a + "[" + b + "]"
  }

  lemma {:induction false} StripsBlanks(u: string, a: string)
    requires Blanks(a) && (u == "" || !IsSpace(u[|u| - 1]))
    ensures RStrip(u + a) == u
    decreases |a|
  {
    if a == "" {
      assert u + a == u;
    } else {
      assert (u + a)[..|u + a| - 1] == u + a[..|a| - 1];
      StripsBlanks(u, a[..|a| - 1]);
    }
  }

  lemma {:induction false} Stripped(s: string) returns (a: string)
    ensures Blanks(a) && s == RStrip(s) + a && (RStrip(s) == "" || !IsSpace(RStrip(s)[|RStrip(s)| - 1]))
    decreases |s|
  {
    if s != "" && IsSpace(s[|s| - 1]) {
      var b := Stripped(s[..|s| - 1]);
      a := b + [s[|s| - 1]];
    } else {
      a := "";
    }
  }

  lemma ArrayParts(t: string, e: string)
    requires ArrayElement(t) == Some(e)
    ensures ArrayOf(t, e)
  {
    var b := Stripped(t[..|t| - 1]);
    var u := RStrip(t[..|t| - 1]);
    var a := Stripped(u[..|u| - 1]);
    hide RStrip, IsSpace, Blanks;
    assert t == t[..|t| - 1] + "]" && u == u[..|u| - 1] + "[";
    assert t == e + a + "[" + b + "]";
    assert ArrayOfWith(t, e, a, b);
  }

  lemma LastChar(s: string, c: char)
    ensures var t := s + [c]; t != "" && t[|t| - 1] == c && t[..|t| - 1] == s
  {
  }

  lemma ArrayParsesWith(e: string, a: string, b: string)
    requires Blanks(a) && Blanks(b) && (e == "" || !IsSpace(e[|e| - 1]))
    ensures ArrayElement(((e + a) + "[") + b + "]") == Some(e)
  {
    var inner := e + a;
    var u := inner + "[";
    var v := u + b;
    LastChar(inner, '[');
    LastChar(v, ']');
    assert !IsSpace('[');
    StripsBlanks(u, b);
    StripsBlanks(e, a);
    hide RStrip, IsSpace, Blanks;
    assert ArrayElement(v + "]") == Some(e);
  }

  lemma ArrayParses(t: string, e: string)
    requires ArrayOf(t, e)
    ensures ArrayElement(t) == Some(e)
  {
    hide ArrayElement;
    var a, b :| ArrayOfWith(t, e, a, b);
    ArrayParsesWith(e, a, b);
  }

  lemma ArraySpelled(t: string, e: string)
    ensures ArrayElement(t) == Some(e) <==> ArrayOf(t, e)
  {
    hide ArrayElement, ArrayOf;
    if ArrayElement(t) == Some(e) {
      ArrayParts(t, e);
    }
    if ArrayOf(t, e) {
      ArrayParses(t, e);
    }
  }

  /** An array is accepted exactly when its element type is, becomes an array of what that becomes, and is lossy. */
  lemma ArrayKindsExactly(pgType: string, e: string)
    requires ArrayOf(Normalize(pgType), e)
    ensures MapPgToDelta(pgType) ==
      match MapPgToDelta(e)
      case Ok(l) => Ok(LogicalType("ARRAY<" + l.deltaType + ">", true, l.reversePgType + "[]"))
      case Err(m) => Err(m)
  {
    hide ScalarType, ArrayOf, Normalize, ArrayElement;
    var t := Normalize(pgType);
    ArraySpelled(t, e);
    assert t != "" by { assert ArrayOf(t, e); ArrayNotEmpty(t, e); }
  }

  lemma ArrayNotEmpty(t: string, e: string)
    requires ArrayOf(t, e)
    ensures t != ""
  {
  }

  // ---- Back from Delta ----

  /** The Postgres type of a Delta name from outside, and the aliases among those names. */
  ghost predicate DeltaMeans(up: string, pg: string) {
    || (up == "BOOLEAN" && pg == "boolean")
    || (up in {"BYTE", "SHORT"} && pg == "smallint")
    || (up in {"INT", "INTEGER"} && pg == "integer")
    || (up in {"LONG", "BIGINT"} && pg == "bigint")
    || (up == "FLOAT" && pg == "real")
    || (up == "DOUBLE" && pg == "double precision")
    || (up == "STRING" && pg == "text")
    || (up == "BINARY" && pg == "bytea")
    || (up == "DATE" && pg == "date")
    || (up == "TIMESTAMP" && pg == "timestamp with time zone")
    || (up == "TIMESTAMP_NTZ" && pg == "timestamp without time zone")
  }

  lemma DeltaNames(up: string, pg: string)
    ensures NamedDelta(up) == Some(pg) <==> DeltaMeans(up, pg)
  {
  }

  /** Names in any case with blanks around them; maps and structs land on `jsonb`. */
  lemma DeltaKinds(deltaType: string, pg: string)
    ensures DeltaMeans(Upper(Strip(deltaType)), pg) ==> MapDeltaToPg(deltaType) == Ok(pg)
    ensures var up := Upper(Strip(deltaType));
      StartsWith(up, "MAP<") || StartsWith(up, "STRUCT<") ==> MapDeltaToPg(deltaType) == Ok("jsonb")
  {
    hide Strip, StartsWith, ParenPair, NamedDelta, DeltaMeans;
    var t := Strip(deltaType);
    var up := Upper(t);
    DeltaNames(up, pg);
    if StartsWith(up, "MAP<") || StartsWith(up, "STRUCT<") {
      NestedOnly(t);
    }
  }

  lemma NestedOnly(t: string)
    requires StartsWith(Upper(t), "MAP<") || StartsWith(Upper(t), "STRUCT<")
    ensures NamedDelta(Upper(t)) == None && !StartsWith(Upper(t), "DECIMAL") && DeltaElement(t) == None
  {
    hide NamedDelta, Strip;
    var up := Upper(t);
    assert StartsWith(up, "MAP<") ==> up[0] == up[..4][0] && up[3] == up[..4][3];
    assert StartsWith(up, "STRUCT<") ==> up[0] == up[..7][0] && up[6] == up[..7][6];
    OtherStart(up, "DECIMAL");
    NestedNotNamed(up);
    assert |t| >= 6 ==> Upper(t[..6]) == up[..6];
    assert |t| >= 6 ==> up[..6][0] == up[0] && "ARRAY<"[0] == 'A';
  }

  lemma NestedNotNamed(up: string)
    requires |up| > 3 && (up[3] == '<' || (|up| > 6 && up[6] == '<'))
    ensures NamedDelta(up) == None
  {
  }

  /** A round trip gives the table's reverse type, and says so when something is lost. */
  lemma RoundtripExactly(pgType: string, pg: string, lossy: bool)
    requires ArrayElement(Normalize(pgType)) == None
    ensures RoundtripPg(pgType) == Ok((pg, lossy)) <==>
      exists delta :: Means(Normalize(pgType), LogicalType(delta, lossy, pg))
  {
    hide MapPgToDelta, Means, Normalize, ArrayElement;
    forall l
      ensures MapPgToDelta(pgType) == Ok(l) <==> Means(Normalize(pgType), l)
    {
      KindsExactly(pgType, l);
    }
    if RoundtripPg(pgType) == Ok((pg, lossy)) {
      assert MapPgToDelta(pgType) == Ok(LogicalType(MapPgToDelta(pgType).value.deltaType, lossy, pg));
    }
  }
}
