/** Kafka messages to change-feed records, and topic names to Delta table locations. */
module Transform {
  import opened Wrappers
  import opened Text

  /** A JSON value; an object or array is kept as its canonical JSON text. */
  datatype Cell = Null | Flag(bit: bool) | Number(n: int) | Str(s: string) | Nested(json: string)

  type Row = map<string, Cell>

  /** What a message body decodes to: nothing, an object, or something the sink cannot read. */
  datatype Payload = Absent | Fields(value: Row) | Garbled

  datatype SinkRecord = SinkRecord(project: string, table: string, row: Row, op: string, deleted: bool)

  const BUCKET := "warehouse"

  /** The three columns the sink adds to every row. */
  const MARKERS: set<string> := {"_op", "_ts_ms", "_deleted"}

  predicate IsProjectChar(c: char) { IsLower(c) || IsDigit(c) || c == '_' }

  predicate IsTableChar(c: char) { IsProjectChar(c) || IsUpper(c) }

  predicate IsTableName(s: string) {
    s != "" && forall i | 0 <= i < |s| :: IsTableChar(s[i])
  }

  /** Length of the longest front part of `s` made of project characters. */
  function ProjectRun(s: string): (n: nat)
    ensures n <= |s|
    ensures forall i | 0 <= i < n :: IsProjectChar(s[i])
  {
    if s != "" && IsProjectChar(s[0]) then 1 + ProjectRun(s[1..]) else 0
  }

  /** The end anchor of the topic pattern also accepts one newline at the end. */
  function DropFinalNewline(s: string): string {
    if s != "" && s[|s| - 1] == '\n' then s[..|s| - 1] else s
  }

  /** `ztap.<project>.proj_<project>.<table>` */
  function ParseTopic(topic: string): Option<(string, string)> {
    var t := DropFinalNewline(topic);
    if !StartsWith(t, "ztap.") then None
    else
      var n := ProjectRun(t[5..]);
      var project := t[5..][..n];
      var rest := t[5..][n..];
      var middle := ".proj_" + project + ".";
      if n > 0 && StartsWith(rest, middle) && IsTableName(rest[|middle|..])
      then Some((project, rest[|middle|..])) else None
  }

  function StorageLocation(project: string, table: string): string {
    "s3://" + BUCKET + "/" + project + "/" + table
  }

  /** The Delta table a topic is written to, if the topic belongs to the sink. */
  function UriOf(topic: string): Option<string> {
    match ParseTopic(topic)
    case Some((project, table)) => Some(StorageLocation(project, table))
    case None => None
  }

  /** Python's `str` of a decoded value. */
  function PyStr(c: Cell): string {
    match c
    case Null => "None"
    case Flag(b) => if b then "True" else "False"
    case Number(n) => if n < 0 then "-" + Decimal(-n) else Decimal(n)
    case Str(s) => s
    case Nested(j) => j
  }

  function Get(row: Row, column: string): Cell {
    if column in row then row[column] else Null
  }

  function DataColumns(value: Row): Row {
    map k | k in value && !StartsWith(k, "__") :: value[k]
  }

  function OpOf(value: Row): string {
    var op := if "__op" in value then PyStr(value["__op"]) else "";
    if op == "" then "r" else op
  }

  predicate DeletedOf(value: Row) {
    var flag := if "__deleted" in value then PyStr(value["__deleted"]) else "false";
    Lower(flag) == "true"
  }

  /** `Ok(None)` for a tombstone, an error for a foreign topic or a message without data columns. */
  function ToRecord(topic: string, value: Option<Row>): Result<Option<SinkRecord>, string> {
    match ParseTopic(topic)
    case None => Err("not a ztap CDC topic")
    case Some((project, table)) =>
      if value == None then Ok(None)
      else
        var v := value.value;
        var data := DataColumns(v);
        if data == map[] then Err("message has no data columns")
        else
          var row := data["_op" := Str(OpOf(v))]["_ts_ms" := Get(v, "__ts_ms")]["_deleted" := Flag(DeletedOf(v))];
          Ok(Some(SinkRecord(project, table, row, OpOf(v), DeletedOf(v))))
  }

  /** The feed row a message contributes; tombstones and rejected messages contribute none. */
  function FeedRow(topic: string, payload: Payload): Option<Row> {
    match payload
    case Fields(v) =>
      (match ToRecord(topic, Some(v))
       case Ok(Some(record)) => Some(record.row)
       case _ => None)
    case _ => None
  }

  // ---- Distinct topics are distinct tables ----

  function TopicName(project: string, table: string): string {
    "ztap." + project + ".proj_" + project + "." + table
  }

  lemma ThreeParts(t: string, n: nat, middle: string)
    requires |t| >= 5 && t[..5] == "ztap." && n <= |t[5..]|
    requires |middle| <= |t[5..][n..]| && t[5..][n..][..|middle|] == middle
    ensures t == "ztap." + (t[5..][..n] + (middle + t[5..][n..][|middle|..]))
  {
    var rest := t[5..][n..];
    assert rest == middle + rest[|middle|..];
    assert t[5..] == t[5..][..n] + rest;
    assert t == t[..5] + t[5..];
  }

  lemma Regroup(project: string, table: string)
    ensures TopicName(project, table) == "ztap." + (project + (".proj_" + project + "." + table))
  {
  }

  lemma ParsedTopicIs(topic: string, project: string, table: string)
    requires ParseTopic(topic) == Some((project, table))
    ensures DropFinalNewline(topic) == TopicName(project, table)
    ensures forall i | 0 <= i < |project| :: IsProjectChar(project[i])
  {
    hide IsTableName, DropFinalNewline, TopicName;
    var t := DropFinalNewline(topic);
    Regroup(project, table);
    ThreeParts(t, ProjectRun(t[5..]), ".proj_" + project + ".");
  }

  lemma {:induction false} ProjectRunExact(name: string, rest: string)
    requires forall i | 0 <= i < |name| :: IsProjectChar(name[i])
    requires rest != "" && !IsProjectChar(rest[0])
    ensures ProjectRun(name + rest) == |name|
    ensures (name + rest)[..|name|] == name && (name + rest)[|name|..] == rest
  {
    if name == "" {
      assert name + rest == rest;
    } else {
      assert (name + rest)[1..] == name[1..] + rest;
      ProjectRunExact(name[1..], rest);
    }
  }

  predicate IsProjectName(s: string) {
    s != "" && forall i | 0 <= i < |s| :: IsProjectChar(s[i])
  }

  lemma NamedTopicParses(topic: string, project: string, table: string)
    requires IsProjectName(project) && IsTableName(table) && DropFinalNewline(topic) == TopicName(project, table)
    ensures ParseTopic(topic) == Some((project, table))
  {
    hide IsTableName, DropFinalNewline;
    var t, middle := DropFinalNewline(topic), ".proj_" + project + ".";
    assert t[..5] == "ztap." && t[5..] == project + (middle + table);
    ProjectRunExact(project, middle + table);
    assert (middle + table)[..|middle|] == middle && (middle + table)[|middle|..] == table;
  }

  lemma NameChars(project: string, table: string)
    ensures IsProjectName(project) <==>
      project != "" && forall c | c in project :: 'a' <= c <= 'z' || '0' <= c <= '9' || c == '_'
    ensures IsTableName(table) <==>
      table != "" && forall c | c in table :: 'a' <= c <= 'z' || 'A' <= c <= 'Z' || '0' <= c <= '9' || c == '_'
  {
    assert forall i | 0 <= i < |project| :: project[i] in project;
    assert forall i | 0 <= i < |table| :: table[i] in table;
  }

  lemma NamedTopic(topic: string, project: string, table: string)
    requires IsTableName(table)
    ensures DropFinalNewline(topic) == TopicName(project, table) <==>
      topic == TopicName(project, table) || topic == TopicName(project, table) + "\n"
  {
    var name := TopicName(project, table);
    assert name[|name| - 1] == table[|table| - 1] && IsTableChar(table[|table| - 1]);
    assert (name + "\n")[..|name + "\n"| - 1] == name;
    if topic != "" && topic[|topic| - 1] == '\n' {
      assert topic == topic[..|topic| - 1] + "\n";
    }
  }

  /** A topic is accepted exactly when it spells a project name twice and a table name, a newline after it or not. */
  lemma TopicExactly(topic: string, project: string, table: string)
    ensures ParseTopic(topic) == Some((project, table)) <==>
      && project != "" && (forall c | c in project :: 'a' <= c <= 'z' || '0' <= c <= '9' || c == '_')
      && table != ""
      && (forall c | c in table :: 'a' <= c <= 'z' || 'A' <= c <= 'Z' || '0' <= c <= '9' || c == '_')
      && (topic == TopicName(project, table) || topic == TopicName(project, table) + "\n")
  {
    hide DropFinalNewline, TopicName;
    NameChars(project, table);
    hide IsProjectName, IsTableName;
    if IsTableName(table) {
      NamedTopic(topic, project, table);
    }
    if ParseTopic(topic) == Some((project, table)) {
      ParsedTopicIs(topic, project, table);
    } else if IsProjectName(project) && IsTableName(table) && DropFinalNewline(topic) == TopicName(project, table) {
      NamedTopicParses(topic, project, table);
    }
  }

  lemma LocationInjective(p: string, t: string, q: string, u: string)
    requires StorageLocation(p, t) == StorageLocation(q, u)
    requires '/' !in p && '/' !in q
    ensures p == q && t == u
  {
    var prefix := "s3://" + BUCKET + "/";
    var a, b := p + "/" + t, q + "/" + u;
    assert StorageLocation(p, t) == prefix + a && StorageLocation(q, u) == prefix + b;
    assert a == (prefix + a)[|prefix|..] && b == (prefix + b)[|prefix|..];
    assert a[|p|] == '/' && b[|q|] == '/' && |p| == |q|;
    assert p == a[..|p|] && q == b[..|q|];
    assert t == a[|p| + 1..] && u == b[|q| + 1..];
  }

  /** Two topics share a Delta table exactly when they differ by at most a newline at the end. */
  lemma SharedTable(a: string, b: string)
    requires UriOf(a).Some? && UriOf(b).Some?
    ensures UriOf(a) == UriOf(b) <==> a == b || a == b + "\n" || b == a + "\n"
  {
    hide TopicName, DropFinalNewline;
    var (p, t) := ParseTopic(a).value;
    var (q, u) := ParseTopic(b).value;
    ParsedTopicIs(a, p, t);
    ParsedTopicIs(b, q, u);
    TopicExactly(a, p, t);
    TopicExactly(b, q, u);
    TopicExactly(b, p, t);
    TopicExactly(a, q, u);
    if UriOf(a) == UriOf(b) {
      LocationInjective(p, t, q, u);
    }
    NameEnds(p, t);
    NameEnds(q, u);
    OneNewline(a, b, TopicName(p, t), TopicName(q, u));
  }

  lemma NameEnds(project: string, table: string)
    requires IsTableName(table)
    ensures var name := TopicName(project, table); name != "" && name[|name| - 1] != '\n'
  {
    var name := TopicName(project, table);
    assert name[|name| - 1] == table[|table| - 1] && IsTableChar(table[|table| - 1]);
  }

  /** Two names, each with or without a newline behind, are the same exactly when the texts differ by that at most. */
  lemma OneNewline(a: string, b: string, x: string, y: string)
    requires (a == x || a == x + "\n") && (b == y || b == y + "\n")
    requires x != "" && x[|x| - 1] != '\n' && y != "" && y[|y| - 1] != '\n'
    ensures a == b || a == b + "\n" || b == a + "\n" <==> x == y
  {
    assert (x + "\n")[..|x|] == x && (y + "\n")[..|y|] == y;
    assert (a + "\n")[..|a|] == a && (b + "\n")[..|b|] == b;
  }

  // ---- What a message leaves in the feed ----

  /** A column of the connector itself, as opposed to one of the table. */
  predicate IsMeta(k: string) {
    |k| >= 2 && k[0] == '_' && k[1] == '_'
  }

  lemma MetaStarts(k: string)
    ensures StartsWith(k, "__") <==> IsMeta(k)
  {
    if |k| >= 2 {
      assert k[..2] == [k[0], k[1]];
      assert "__" == ['_', '_'];
    }
  }

  /** A message on an accepted topic becomes a feed row exactly when it has a column that is not the connector's. */
  lemma FeedRowExactly(topic: string, v: Row)
    requires UriOf(topic).Some?
    ensures FeedRow(topic, Fields(v)).Some? <==> exists k | k in v :: !IsMeta(k)
    ensures FeedRow(topic, Absent) == None && FeedRow(topic, Garbled) == None
  {
    hide ParseTopic, OpOf, DeletedOf, IsMeta;
    forall k
      ensures k in DataColumns(v) <==> k in v && !IsMeta(k)
    {
      MetaStarts(k);
    }
    assert DataColumns(v) == map[] <==> forall k :: k !in DataColumns(v);
  }

  /**
   * Column by column: the table's columns as they came, then the operation (`r` when none is given), the time, and
   * the delete flag, which is set by `true` in any case or by the boolean.
   */
  lemma FeedRowCells(topic: string, v: Row, row: Row)
    requires FeedRow(topic, Fields(v)) == Some(row)
    ensures forall k | k !in {"_op", "_ts_ms", "_deleted"} ::
      (k in row <==> k in v && !IsMeta(k)) && (k in row ==> row[k] == v[k])
    ensures {"_op", "_ts_ms", "_deleted"} <= row.Keys
    ensures row["_ts_ms"] == if "__ts_ms" in v then v["__ts_ms"] else Null
    ensures "__op" !in v || v["__op"] == Str("") ==> row["_op"] == Str("r")
    ensures "__op" in v && v["__op"].Str? && v["__op"].s != "" ==> row["_op"] == v["__op"]
    ensures "__op" in v && v["__op"].Null? ==> row["_op"] == Str("None")
    ensures "__op" in v && v["__op"].Flag? ==> row["_op"] == Str(if v["__op"].bit then "True" else "False")
    ensures "__deleted" !in v ==> row["_deleted"] == Flag(false)
    ensures "__deleted" in v && v["__deleted"].Flag? ==> row["_deleted"] == v["__deleted"]
    ensures "__deleted" in v && v["__deleted"].Str? ==> row["_deleted"] == Flag(Lower(v["__deleted"].s) == "true")
    ensures "__deleted" in v && (v["__deleted"].Null? || v["__deleted"].Number?) ==> row["_deleted"] == Flag(false)
  {
    hide ParseTopic, IsMeta, StartsWith, PyStr;
    forall k
      ensures StartsWith(k, "__") <==> IsMeta(k)
    {
      MetaStarts(k);
    }
    if "__op" in v {
      PyText(v["__op"]);
    }
    FlagText();
    if "__deleted" in v {
      PyText(v["__deleted"]);
    }
  }

  lemma PyText(c: Cell)
    ensures c.Str? ==> PyStr(c) == c.s
    ensures c.Null? ==> PyStr(c) == "None"
    ensures c.Flag? ==> PyStr(c) == (if c.bit then "True" else "False") && (Lower(PyStr(c)) == "true" <==> c.bit)
    ensures c.Null? || c.Number? ==> Lower(PyStr(c)) != "true"
  {
    assert Lower("True") == "true" && Lower("False")[0] == 'f' && Lower("None")[0] == 'n';
    if c.Number? {
      var text := PyStr(c);
      assert text[0] == '-' || IsDigit(text[0]);
      assert Lower(text)[0] == text[0];
    }
  }

  lemma FlagText()
    ensures Lower("false") != "true"
  {
    assert Lower("false")[0] == 'f';
  }
}
