/** The drained change feed, collapsed to its latest rows, is the source table. */
module FeedFidelity {
  import opened Wrappers
  import opened Text
  import opened Sequences
  import opened Transform
  import opened Postgres
  import opened SinkModel
  import opened SinkSafety

  /** One committed change of the source table, with the row image the connector publishes. */
  datatype Change = Change(row: Row, ts: int, op: string, deletes: bool)

  /** A change whose columns survive the sink: it has its key and no reserved column name. */
  predicate Clean(c: Change, pk: string) {
    pk in c.row && c.op != "" && forall k | k in c.row :: !StartsWith(k, "__") && k !in MARKERS
  }

  function Message(c: Change): Payload {
    var deleted := Str(if c.deletes then "true" else "false");
    Fields(c.row["__op" := Str(c.op)]["__ts_ms" := Number(c.ts)]["__deleted" := deleted])
  }

  /** A delete is followed by a tombstone. */
  function Messages(c: Change): seq<Payload> {
    if c.deletes then [Message(c), Absent] else [Message(c)]
  }

  function Encode(history: seq<Change>): seq<Payload> {
    if history == [] then []
    else Encode(history[..|history| - 1]) + Messages(history[|history| - 1])
  }

  /** The source table after its history. */
  function Replay(history: seq<Change>, pk: string): map<Cell, Row> {
    if history == [] then map[]
    else
      var before, c := Replay(history[..|history| - 1], pk), history[|history| - 1];
      if c.deletes then before - {Get(c.row, pk)} else before[Get(c.row, pk) := c.row]
  }

  function TimeOf(row: Row): int {
    match Get(row, "_ts_ms")
    case Number(n) => n
    case _ => 0
  }

  /** A row of key `k` with the greatest `_ts_ms`. */
  ghost predicate Newest(rows: set<Row>, pk: string, k: Cell, x: Row) {
    x in rows && Get(x, pk) == k && forall y | y in rows && Get(y, pk) == k :: TimeOf(y) <= TimeOf(x)
  }

  /** What a picked row shows: itself without the sink's columns, unless it is a delete. */
  function Shown(x: Row): Option<Row> {
    if Get(x, "_deleted") == Flag(false) then Some(x - MARKERS) else None
  }

  /** The documented query may show `result` for key `k`: it picks one newest row, any of those tied. */
  ghost predicate QueryShows(rows: set<Row>, pk: string, k: Cell, result: Option<Row>) {
    if exists x :: x in rows && Get(x, pk) == k then exists x :: Newest(rows, pk, k, x) && Shown(x) == result
    else result == None
  }

  /** Whatever the query picks, it shows what the source table holds. */
  ghost predicate Faithful(rows: set<Row>, history: seq<Change>, pk: string, k: Cell) {
    forall result :: QueryShows(rows, pk, k, result) <==> result == Lookup(Replay(history, pk), k)
  }

  /** The feed row of a change. */
  function Image(c: Change): Row {
    c.row["_op" := Str(c.op)]["_ts_ms" := Number(c.ts)]["_deleted" := Flag(c.deletes)]
  }

  lemma ReservedNames(k: string)
    requires k == "__op" || k == "__ts_ms" || k == "__deleted"
    ensures StartsWith(k, "__")
  {
  }

  lemma MessageData(c: Change, pk: string, value: Row)
    requires Clean(c, pk) && Message(c) == Fields(value)
    ensures DataColumns(value) == c.row
    ensures OpOf(value) == c.op && DeletedOf(value) == c.deletes && Get(value, "__ts_ms") == Number(c.ts)
  {
    ReservedNames("__op");
    ReservedNames("__ts_ms");
    ReservedNames("__deleted");
    hide StartsWith;
    assert Lower("true") == "true" && Lower("false") == "false";
    assert "false"[0] == 'f';
    assert DataColumns(value) == c.row;
  }

  lemma MessageRow(c: Change, pk: string, topic: string)
    requires Clean(c, pk) && UriOf(topic).Some?
    ensures FeedRow(topic, Message(c)) == Some(Image(c))
  {
    hide ParseTopic, DataColumns, OpOf, DeletedOf;
    MessageData(c, pk, Message(c).value);
    assert pk in c.row;
  }

  predicate CleanHistory(history: seq<Change>, pk: string) {
    forall c | c in history :: Clean(c, pk)
  }

  function RowSet(entries: seq<Entry>): set<Row> {
    set e | e in entries :: e.row
  }

  function Images(history: seq<Change>): set<Row> {
    set c | c in history :: Image(c)
  }

  /** One more change adds one data record: its image, at the end of the log. */
  lemma MessagesAdd(p: Partition, earlier: seq<Payload>, c: Change, pk: string)
    requires Clean(c, pk) && UriOf(p.topic).Some?
    ensures var log := earlier + Messages(c);
      Data(p, log, 0, |log|) == Data(p, earlier, 0, |earlier|) + [Entry(p, |earlier|, Image(c))]
  {
    hide FeedRow, UriOf, Clean, Image, Message, Data, OfKey;
    var log := earlier + Messages(c);
    MessageRow(c, pk, p.topic);
    NothingFromAbsent(p.topic);
    DataGrows(p, earlier, Messages(c), 0, |earlier|);
    assert log[|earlier|] == Message(c);
    OneRecord(p, log, |earlier|);
    DataSplit(p, log, 0, |earlier|, |earlier| + 1);
    if c.deletes {
      assert log[|earlier| + 1] == Absent;
      OneRecord(p, log, |earlier| + 1);
      DataSplit(p, log, 0, |earlier| + 1, |earlier| + 2);
    }
  }

  /** The rows of the data records of an encoded history are the images of its changes. */
  lemma {:induction false} EncodedRows(p: Partition, history: seq<Change>, pk: string)
    requires CleanHistory(history, pk) && UriOf(p.topic).Some?
    ensures var log := Encode(history); RowSet(Data(p, log, 0, |log|)) == Images(history)
    decreases |history|
  {
    hide FeedRow, UriOf, Clean, Image, Messages, Data, RowSet, Images;
    if history == [] {
      NoRows(p);
    } else {
      var prior, c := history[..|history| - 1], history[|history| - 1];
      assert c in history && forall x | x in prior :: x in history;
      EncodedRows(p, prior, pk);
      var earlier := Encode(prior);
      MessagesAdd(p, earlier, c, pk);
      RowsAppend(Data(p, earlier, 0, |earlier|), Entry(p, |earlier|, Image(c)));
      ImagesAppend(prior, c);
      assert history == prior + [c];
    }
  }

  lemma NoRows(p: Partition)
    ensures RowSet(Data(p, [], 0, 0)) == Images([])
  {
  }

  lemma NothingFromAbsent(topic: string)
    ensures FeedRow(topic, Absent) == None
  {
  }

  lemma RowsAppend(d: seq<Entry>, e: Entry)
    ensures RowSet(d + [e]) == RowSet(d) + {e.row}
  {
    assert forall x :: x in d + [e] <==> x in d || x == e;
    forall r | r in RowSet(d) + {e.row}
      ensures r in RowSet(d + [e])
    {
      if r == e.row {
        assert e in d + [e];
      } else {
        var x :| x in d && x.row == r;
        assert x in d + [e];
      }
    }
  }

  lemma ImagesAppend(prior: seq<Change>, c: Change)
    ensures Images(prior + [c]) == Images(prior) + {Image(c)}
  {
    hide Image;
    assert forall x :: x in prior + [c] <==> x in prior || x == c;
    forall r | r in Images(prior) + {Image(c)}
      ensures r in Images(prior + [c])
    {
      if r == Image(c) {
        assert c in prior + [c];
      } else {
        var x :| x in prior && Image(x) == r;
        assert x in prior + [c];
      }
    }
  }

  // ---- When the query is right ----

  function Effect(c: Change): Option<Row> { if c.deletes then None else Some(c.row) }

  function LastChange(history: seq<Change>, pk: string, k: Cell): Option<Change> {
    if history == [] then None
    else if Get(history[|history| - 1].row, pk) == k then Some(history[|history| - 1])
    else LastChange(history[..|history| - 1], pk, k)
  }

  ghost predicate NewestChange(history: seq<Change>, pk: string, k: Cell, c: Change) {
    c in history && Get(c.row, pk) == k && forall d | d in history && Get(d.row, pk) == k :: d.ts <= c.ts
  }

  /** Every change of the key that carries its greatest time leaves the key as the last change does. */
  ghost predicate TiesAgree(history: seq<Change>, pk: string, k: Cell) {
    forall c | NewestChange(history, pk, k, c) ::
      LastChange(history, pk, k).Some? && Effect(c) == Effect(LastChange(history, pk, k).value)
  }

  lemma ImageParts(c: Change, pk: string)
    requires Clean(c, pk)
    ensures Get(Image(c), pk) == Get(c.row, pk) && TimeOf(Image(c)) == c.ts && Shown(Image(c)) == Effect(c)
  {
    hide StartsWith;
    assert pk !in MARKERS;
    assert forall k | k in c.row :: k !in MARKERS;
    assert Image(c) - MARKERS == c.row;
  }

  /** The last change of a key decides what the source table holds. */
  lemma {:induction false} LastDecides(history: seq<Change>, pk: string, k: Cell)
    ensures match LastChange(history, pk, k)
      case Some(c) => c in history && Get(c.row, pk) == k && Lookup(Replay(history, pk), k) == Effect(c)
      case None => (forall c | c in history :: Get(c.row, pk) != k) && Lookup(Replay(history, pk), k) == None
    decreases |history|
  {
    if history != [] {
      LastDecides(history[..|history| - 1], pk, k);
      assert history == history[..|history| - 1] + [history[|history| - 1]];
    }
  }

  lemma {:induction false} NewestExists(history: seq<Change>, pk: string, k: Cell) returns (c: Change)
    requires exists d :: d in history && Get(d.row, pk) == k
    ensures NewestChange(history, pk, k, c)
    decreases |history|
  {
    var init, last := history[..|history| - 1], history[|history| - 1];
    assert history == init + [last];
    if exists d :: d in init && Get(d.row, pk) == k {
      c := NewestExists(init, pk, k);
      if Get(last.row, pk) == k && last.ts > c.ts {
        c := last;
      }
    } else {
      c := last;
    }
  }

  lemma NewestImage(history: seq<Change>, pk: string, k: Cell, c: Change)
    requires CleanHistory(history, pk) && c in history
    ensures Newest(Images(history), pk, k, Image(c)) <==> NewestChange(history, pk, k, c)
  {
    hide Image, TimeOf, Clean, Shown;
    forall d | d in history
      ensures Image(d) in Images(history) && Get(Image(d), pk) == Get(d.row, pk) && TimeOf(Image(d)) == d.ts
    {
      ImageParts(d, pk);
    }
    if NewestChange(history, pk, k, c) {
      forall y | y in Images(history) && Get(y, pk) == k
        ensures TimeOf(y) <= TimeOf(Image(c))
      {
        var d :| d in history && Image(d) == y;
      }
    }
  }

  lemma ImageLinks(history: seq<Change>, pk: string, k: Cell)
    requires CleanHistory(history, pk)
    ensures forall c | c in history :: Image(c) in Images(history) && Get(Image(c), pk) == Get(c.row, pk)
    ensures forall c | c in history :: Shown(Image(c)) == Effect(c)
    ensures forall c | c in history :: Newest(Images(history), pk, k, Image(c)) <==> NewestChange(history, pk, k, c)
  {
    hide Image, TimeOf, Clean, Shown, Newest, NewestChange, Effect;
    forall c | c in history
      ensures Get(Image(c), pk) == Get(c.row, pk) && Shown(Image(c)) == Effect(c)
      ensures Newest(Images(history), pk, k, Image(c)) <==> NewestChange(history, pk, k, c)
    {
      ImageParts(c, pk);
      NewestImage(history, pk, k, c);
    }
  }

  lemma FaithfulTiesAgree(history: seq<Change>, pk: string, k: Cell)
    requires CleanHistory(history, pk) && Faithful(Images(history), history, pk, k)
    ensures TiesAgree(history, pk, k)
  {
    hide Image, Clean, Shown, Newest, Effect, Replay, Images;
    LastDecides(history, pk, k);
    ImageLinks(history, pk, k);
    forall c | NewestChange(history, pk, k, c)
      ensures LastChange(history, pk, k).Some? && Effect(c) == Effect(LastChange(history, pk, k).value)
    {
      assert Newest(Images(history), pk, k, Image(c));
      assert QueryShows(Images(history), pk, k, Effect(c));
    }
  }

  lemma AgreedTiesFaithful(history: seq<Change>, pk: string, k: Cell)
    requires CleanHistory(history, pk) && TiesAgree(history, pk, k)
    ensures Faithful(Images(history), history, pk, k)
  {
    hide Image, Clean, Shown, Newest, NewestChange, Effect, Replay;
    LastDecides(history, pk, k);
    ImageLinks(history, pk, k);
    if LastChange(history, pk, k).Some? {
      var n := NewestExists(history, pk, k);
      assert n in history by { NewestIn(history, pk, k, n); }
      forall x | Newest(Images(history), pk, k, x)
        ensures Shown(x) == Effect(LastChange(history, pk, k).value)
      {
        NewestRow(Images(history), pk, k, x);
        var c :| c in history && Image(c) == x;
      }
      assert Newest(Images(history), pk, k, Image(n));
    }
  }

  lemma NewestIn(history: seq<Change>, pk: string, k: Cell, c: Change)
    requires NewestChange(history, pk, k, c)
    ensures c in history && Get(c.row, pk) == k
  {
  }

  lemma NewestRow(rows: set<Row>, pk: string, k: Cell, x: Row)
    requires Newest(rows, pk, k, x)
    ensures x in rows && Get(x, pk) == k
  {
  }

  /** Collapsing the images of a history by time gives the replayed row exactly when ties agree with the last change. */
  lemma CollapseIsReplay(history: seq<Change>, pk: string, k: Cell)
    requires CleanHistory(history, pk)
    ensures Faithful(Images(history), history, pk, k) <==> TiesAgree(history, pk, k)
  {
    hide Faithful, TiesAgree, Images;
    if TiesAgree(history, pk, k) {
      AgreedTiesFaithful(history, pk, k);
    } else if Faithful(Images(history), history, pk, k) {
      FaithfulTiesAgree(history, pk, k);
    }
  }

  /** Two changes in the same millisecond: the query may show the row that the second one replaced. */
  lemma SameMillisecond(pk: string, k: Cell, first: Row, second: Row, ts: int)
    requires first != second && Get(first, pk) == k && Get(second, pk) == k
    requires Clean(Change(first, ts, "c", false), pk) && Clean(Change(second, ts, "u", false), pk)
    ensures var history := [Change(first, ts, "c", false), Change(second, ts, "u", false)];
      QueryShows(Images(history), pk, k, Some(first)) && Lookup(Replay(history, pk), k) == Some(second)
  {
    hide Image, Clean, Shown;
    var history := [Change(first, ts, "c", false), Change(second, ts, "u", false)];
    LastDecides(history, pk, k);
    ImageLinks(history, pk, k);
    assert history[0] in history && NewestChange(history, pk, k, history[0]);
    assert Newest(Images(history), pk, k, Image(history[0]));
  }

  // ---- End to end ----

  /** Key `k` of the table of `p` is only ever published to partition `p`. */
  ghost predicate OnlyIn(s: State, p: Partition, pk: string, k: Cell) {
    forall q, o: nat | q in s.logs && q != p && UriOf(q.topic) == UriOf(p.topic) && o < |s.logs[q]| ::
      FeedRow(q.topic, s.logs[q][o]).Some? ==> Get(FeedRow(q.topic, s.logs[q][o]).value, pk) != k
  }

  /** A row of key `k` in the table comes from partition `p`. */
  lemma KeyStaysHome(s: State, p: Partition, pk: string, k: Cell, e: Entry)
    requires Inv(s) && p in s.logs && UriOf(p.topic).Some? && OnlyIn(s, p, pk, k)
    requires e in TableFor(s, p).rows && Get(e.row, pk) == k
    ensures e.source == p
  {
    hide FeedRow, UriOf, OfKey, Data, Covered, Shape, AllWait, CommittedSafe;
    var uri := UriOf(p.topic).value;
    var t, q := TableFor(s, p), e.source;
    assert From(t.rows, s.logs.Keys, uri);
    assert TableFor(s, q) == t && Holds(q, s.logs[q], t);
    OfKeyIn(t.rows, BySource, q);
    HoldsExactly(q, s.logs[q], t);
  }

  /** The drained feed shows for a key what the source table holds, exactly when the key's ties agree. */
  lemma ForwardFidelity(s: State, p: Partition, history: seq<Change>, pk: string, k: Cell)
    requires Inv(s) && p in s.position && UriOf(p.topic).Some?
    requires s.batch == map[] && s.position[p] == |s.logs[p]| && s.logs[p] == Encode(history)
    requires CleanHistory(history, pk) && OnlyIn(s, p, pk, k)
    ensures Faithful(RowSet(TableFor(s, p).rows), history, pk, k) <==> TiesAgree(history, pk, k)
  {
    hide FeedRow, UriOf, OfKey, Data, Durable, Shape, Image, QueryShows, Waits, CleanHistory, TiesAgree, Encode,
      OnlyIn, Images;
    var t := TableFor(s, p);
    DrainedIsComplete(s, p);
    EncodedRows(p, history, pk);
    CollapseIsReplay(history, pk, k);
    OfKeyIn(t.rows, BySource, p);
    var home := RowSet(OfKey(t.rows, BySource, p));
    assert home <= RowSet(t.rows);
    forall x | x in RowSet(t.rows) - home
      ensures Get(x, pk) != k
    {
      var e :| e in t.rows && e.row == x;
      assert e !in OfKey(t.rows, BySource, p);
      if Get(x, pk) == k {
        KeyStaysHome(s, p, pk, k, e);
      }
    }
    forall result
      ensures QueryShows(RowSet(t.rows), pk, k, result) <==> QueryShows(home, pk, k, result)
    {
      OtherKeys(home, RowSet(t.rows), pk, k, result);
    }
  }

  /** Rows of other keys do not matter. */
  lemma OtherKeys(rows: set<Row>, more: set<Row>, pk: string, k: Cell, result: Option<Row>)
    requires rows <= more && forall x | x in more - rows :: Get(x, pk) != k
    ensures QueryShows(more, pk, k, result) <==> QueryShows(rows, pk, k, result)
  {
    hide TimeOf, Shown;
    assert forall x :: x in more && Get(x, pk) == k <==> x in rows && Get(x, pk) == k;
    assert forall x :: Newest(more, pk, k, x) <==> Newest(rows, pk, k, x);
  }

  /** Changes of key `k` carry strictly increasing times. */
  predicate Increasing(history: seq<Change>, pk: string, k: Cell) {
    forall i, j | 0 <= i < j < |history| && Get(history[i].row, pk) == k && Get(history[j].row, pk) == k ::
      history[i].ts < history[j].ts
  }

  /** Strictly increasing times leave no ties. */
  lemma IncreasingAgrees(history: seq<Change>, pk: string, k: Cell)
    requires Increasing(history, pk, k)
    ensures TiesAgree(history, pk, k)
  {
    hide Replay;
    LastDecides(history, pk, k);
    forall c | NewestChange(history, pk, k, c)
      ensures LastChange(history, pk, k) == Some(c)
    {
      var i := LastAt(history, pk, k);
      var j :| 0 <= j < |history| && history[j] == c;
    }
  }

  lemma {:induction false} LastAt(history: seq<Change>, pk: string, k: Cell) returns (i: nat)
    requires LastChange(history, pk, k).Some?
    ensures i < |history| && LastChange(history, pk, k) == Some(history[i]) && Get(history[i].row, pk) == k
    ensures forall j | i < j < |history| :: Get(history[j].row, pk) != k
    decreases |history|
  {
    i := |history| - 1;
    if Get(history[i].row, pk) != k {
      i := LastAt(history[..|history| - 1], pk, k);
    }
  }
}
