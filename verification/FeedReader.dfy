/** The documented query over what a reader of the Delta table finds: nested values as text, absent columns as null. */
module FeedReader {
  import opened Wrappers
  import opened Text
  import opened Sequences
  import opened Transform
  import opened Postgres
  import opened SinkModel
  import opened SinkSafety
  import opened SinkProgress
  import opened FeedFidelity
  import opened Writer

  /** A row as read: every column name has a cell. */
  type View = string -> Cell

  function ReadTime(v: View): int {
    match v("_ts_ms") case Number(n) => n case _ => 0
  }

  /** Row `i` has key `k` and the greatest `_ts_ms` of that key. */
  ghost predicate ReadNewest(view: seq<View>, pk: string, k: Cell, i: nat) {
    && i < |view| && view[i](pk) == k
    && forall j | 0 <= j < |view| && view[j](pk) == k :: ReadTime(view[j]) <= ReadTime(view[i])
  }

  /** What the query shows of a picked row is `result`, as a reader sees it. */
  ghost predicate ShowsRow(v: View, result: Option<Row>) {
    && (v("_deleted") == Flag(false) <==> result.Some?)
    && (result.Some? ==> forall c | c !in MARKERS :: ReadsFor(v(c), Get(result.value, c)))
  }

  /** Whichever newest row the query picks, it shows what the source table holds. */
  ghost predicate ReadFaithful(view: seq<View>, history: seq<Change>, pk: string, k: Cell) {
    if exists i :: 0 <= i < |view| && view[i](pk) == k
    then forall i: nat | ReadNewest(view, pk, k, i) :: ShowsRow(view[i], Lookup(Replay(history, pk), k))
    else Lookup(Replay(history, pk), k) == None
  }

  ghost predicate SameReading(a: Option<Row>, b: Option<Row>) {
    && a.Some? == b.Some?
    && (a.Some? ==> forall c | c !in MARKERS :: ReadAlike(Get(a.value, c), Get(b.value, c)))
  }

  /** Every change at the key's greatest time reads like the last change. */
  ghost predicate ReadTiesAgree(history: seq<Change>, pk: string, k: Cell) {
    forall c | NewestChange(history, pk, k, c) ::
      LastChange(history, pk, k).Some? && SameReading(Effect(c), Effect(LastChange(history, pk, k).value))
  }

  // ---- A reader sees the changes ----

  ghost predicate ReadsAs(v: View, c: Change, pk: string) {
    && v(pk) == Get(c.row, pk) && ReadTime(v) == c.ts && v("_deleted") == Flag(c.deletes)
    && forall col | col !in MARKERS :: ReadsFor(v(col), Get(c.row, col))
  }

  /** The rows of key `k` are the changes of key `k`. */
  ghost predicate Reads(view: seq<View>, history: seq<Change>, pk: string, k: Cell) {
    && (forall i | 0 <= i < |view| && view[i](pk) == k :: exists c :: c in history && ReadsAs(view[i], c, pk))
    && (forall c | c in history && Get(c.row, pk) == k :: exists i :: 0 <= i < |view| && ReadsAs(view[i], c, pk))
  }

  lemma NewestReads(view: seq<View>, history: seq<Change>, pk: string, k: Cell, i: nat, c: Change)
    requires Reads(view, history, pk, k) && i < |view| && c in history && ReadsAs(view[i], c, pk)
    ensures ReadNewest(view, pk, k, i) <==> NewestChange(history, pk, k, c)
  {
    hide ReadTime;
    if ReadNewest(view, pk, k, i) {
      forall d | d in history && Get(d.row, pk) == k
        ensures d.ts <= c.ts
      {
        var j :| 0 <= j < |view| && ReadsAs(view[j], d, pk);
      }
    }
    if NewestChange(history, pk, k, c) {
      forall j | 0 <= j < |view| && view[j](pk) == k
        ensures ReadTime(view[j]) <= ReadTime(view[i])
      {
        var d :| d in history && ReadsAs(view[j], d, pk);
      }
    }
  }

  lemma ShowsOutcome(v: View, c: Change, pk: string, result: Option<Row>)
    requires ReadsAs(v, c, pk)
    ensures ShowsRow(v, result) <==> SameReading(Effect(c), result)
  {
    hide ReadTime;
    assert forall a, b, x: Cell | ReadsFor(x, a) :: ReadsFor(x, b) <==> ReadAlike(a, b);
  }

  /** The query over the reader's rows is right exactly when ties read like the last change. */
  lemma QueryReads(view: seq<View>, history: seq<Change>, pk: string, k: Cell)
    requires Reads(view, history, pk, k)
    ensures ReadFaithful(view, history, pk, k) <==> ReadTiesAgree(history, pk, k)
  {
    hide ReadsAs, ShowsRow, SameReading, Effect, Replay, NewestChange, ReadNewest;
    LastDecides(history, pk, k);
    NewestParts(view, history, pk, k);
    if ReadFaithful(view, history, pk, k) {
      forall c | NewestChange(history, pk, k, c)
        ensures LastChange(history, pk, k).Some?
        ensures SameReading(Effect(c), Effect(LastChange(history, pk, k).value))
      {
        var i :| 0 <= i < |view| && ReadsAs(view[i], c, pk);
        NewestReads(view, history, pk, k, i, c);
        ShowsOutcome(view[i], c, pk, Effect(LastChange(history, pk, k).value));
      }
    }
    if ReadTiesAgree(history, pk, k) {
      forall i: nat | ReadNewest(view, pk, k, i)
        ensures ShowsRow(view[i], Lookup(Replay(history, pk), k))
      {
        var c :| c in history && ReadsAs(view[i], c, pk);
        NewestReads(view, history, pk, k, i, c);
        ShowsOutcome(view[i], c, pk, Lookup(Replay(history, pk), k));
      }
    }
  }

  lemma NewestParts(view: seq<View>, history: seq<Change>, pk: string, k: Cell)
    requires Reads(view, history, pk, k)
    ensures forall i: nat | ReadNewest(view, pk, k, i) :: i < |view| && view[i](pk) == k
    ensures forall c | NewestChange(history, pk, k, c) :: c in history && Get(c.row, pk) == k
    ensures (exists i :: 0 <= i < |view| && view[i](pk) == k) <==> exists c :: c in history && Get(c.row, pk) == k
  {
    hide ReadTime, ReadsAs, Get;
    if c :| c in history && Get(c.row, pk) == k {
      var i :| 0 <= i < |view| && ReadsAs(view[i], c, pk);
      ReadsKey(view[i], c, pk);
    }
    if i :| 0 <= i < |view| && view[i](pk) == k {
      var c :| c in history && ReadsAs(view[i], c, pk);
      ReadsKey(view[i], c, pk);
    }
  }

  lemma ReadsKey(v: View, c: Change, pk: string)
    requires ReadsAs(v, c, pk)
    ensures v(pk) == Get(c.row, pk)
  {
  }

  /** Ties that agree read alike, so strictly increasing times are enough here too. */
  lemma IncreasingReads(history: seq<Change>, pk: string, k: Cell)
    requires Increasing(history, pk, k)
    ensures ReadTiesAgree(history, pk, k)
  {
    hide NewestChange, Increasing;
    IncreasingAgrees(history, pk, k);
  }

  // ---- From the sink to the reader ----

  /** The batches hold the rows, wherever they are cut and in whatever column order. */
  ghost predicate Cuts(batches: seq<seq<Record>>, rows: seq<Entry>) {
    |Flatten(batches)| == |rows| &&
    forall i | 0 <= i < |rows| :: Flatten(batches)[i].cells == rows[i].row && Flatten(batches)[i].Valid()
  }

  ghost predicate PlainKeys(rows: seq<Entry>, pk: string) {
    forall e | e in rows :: !Get(e.row, pk).Nested?
  }

  /** Every row of a table is the feed row of a record. */
  lemma RowIsFeed(s: State, p: Partition, e: Entry) returns (payload: Payload)
    requires Inv(s) && p in s.logs && UriOf(p.topic).Some? && e in TableFor(s, p).rows
    ensures FeedRow(e.source.topic, payload) == Some(e.row)
  {
    hide FeedRow, UriOf, OfKey, Data, Covered, Shape, AllWait, CommittedSafe;
    var t, q := TableFor(s, p), e.source;
    assert From(t.rows, s.logs.Keys, UriOf(p.topic).value);
    assert TableFor(s, q) == t && Holds(q, s.logs[q], t);
    OfKeyIn(t.rows, BySource, q);
    HoldsExactly(q, s.logs[q], t);
    payload := s.logs[q][e.offset];
  }

  lemma ReaderSees(s: State, p: Partition, batches: seq<seq<Record>>)
    requires Inv(s) && p in s.logs && UriOf(p.topic).Some? && Cuts(batches, TableFor(s, p).rows)
    ensures var rows, view := TableFor(s, p).rows, ReadAll(batches);
      |view| == |rows| && forall i, c | 0 <= i < |rows| :: ReadsFor(view[i](c), Get(rows[i].row, c))
  {
    hide Inv, FeedRow, UriOf, TableFor, ReadAll, HasValue, Flatten, ReadsFor;
    var rows, all := TableFor(s, p).rows, Flatten(batches);
    forall r | r in all
      ensures r.Valid() && HasValue(r)
    {
      var i :| 0 <= i < |all| && all[i] == r;
      var payload := RowIsFeed(s, p, rows[i]);
      FeedRowHasValue(rows[i].source.topic, payload, r);
    }
    AllRowsRead(batches);
    forall i: nat, c: string | i < |rows|
      ensures ReadsFor(ReadAll(batches)[i](c), Get(rows[i].row, c))
    {
      ReadsEveryCell(batches, i, c);
    }
  }

  lemma ReadsImage(v: View, row: Row, c: Change, pk: string)
    requires Clean(c, pk) && row == Image(c) && !Get(row, pk).Nested?
    requires forall col :: ReadsFor(v(col), Get(row, col))
    ensures ReadsAs(v, c, pk)
  {
    hide StartsWith;
    assert pk !in MARKERS && pk in c.row;
  }

  lemma TableReads(s: State, p: Partition, history: seq<Change>, pk: string, k: Cell, batches: seq<seq<Record>>)
    requires Inv(s) && p in s.position && UriOf(p.topic).Some?
    requires s.batch == map[] && p in s.logs && s.position[p] == |s.logs[p]| && s.logs[p] == Encode(history)
    requires CleanHistory(history, pk) && OnlyIn(s, p, pk, k) && PlainKeys(TableFor(s, p).rows, pk)
    requires Cuts(batches, TableFor(s, p).rows)
    ensures Reads(ReadAll(batches), history, pk, k)
  {
    hide Inv, FeedRow, UriOf, OfKey, Data, TableFor, ReadAll, Cuts, Encode;
    hide OnlyIn, Image, ReadsAs, ReadsFor, Clean;
    var rows, view := TableFor(s, p).rows, ReadAll(batches);
    ReaderSees(s, p, batches);
    DrainedIsComplete(s, p);
    EncodedRows(p, history, pk);
    OfKeyIn(rows, BySource, p);
    forall i | 0 <= i < |view| && view[i](pk) == k
      ensures exists c :: c in history && ReadsAs(view[i], c, pk)
    {
      assert rows[i] in rows;
      PlainIsRead(Get(rows[i].row, pk));
      KeyStaysHome(s, p, pk, k, rows[i]);
      assert rows[i].row in RowSet(OfKey(rows, BySource, p));
      var c :| c in history && Image(c) == rows[i].row;
      ReadsImage(view[i], rows[i].row, c, pk);
    }
    forall c | c in history && Get(c.row, pk) == k
      ensures exists i :: 0 <= i < |view| && ReadsAs(view[i], c, pk)
    {
      assert Image(c) in Images(history);
      var e :| e in OfKey(rows, BySource, p) && e.row == Image(c);
      var i :| 0 <= i < |rows| && rows[i] == e;
      ReadsImage(view[i], e.row, c, pk);
    }
  }

  lemma PlainIsRead(c: Cell)
    requires !c.Nested?
    ensures forall x | ReadsFor(x, c) :: x == c
  {
  }

  /**
   * From empty stores, after any covered run and any undisturbed polls that drain the partition, the documented query
   * over what a reader finds shows what the source table holds, exactly when the key's ties read like its last change.
   */
  lemma EndToEnd(s0: State, evs: seq<Event>, polls: seq<Event>, plan: Plan, last: Plan, limit: nat, p: Partition,
                 history: seq<Change>, pk: string, k: Cell, batches: seq<seq<Record>>)
    requires Initial(s0) && AdmissibleRun(s0, evs, limit)
    requires var s := Run(s0, evs, limit);
      && s.running && p in s.position && p in s.logs && Undisturbed(s, polls, limit) && Calm(plan)
      && Deliveries(polls, p) >= |s.logs[p]| - s.position[p]
      && s.logs[p] == Encode(history) && OnlyIn(s, p, pk, k)
    requires UriOf(p.topic).Some? && CleanHistory(history, pk)
    requires var rows := TableFor(Run(Run(s0, evs, limit), polls + [Quiet(true, plan, last)], limit), p).rows;
      PlainKeys(rows, pk) && Cuts(batches, rows)
    ensures ReadFaithful(ReadAll(batches), history, pk, k) <==> ReadTiesAgree(history, pk, k)
  {
    hide Inv, Run, FeedRow, UriOf, OfKey, Data, TableFor, ReadAll, Cuts, Encode, OnlyIn, PlainKeys, Undisturbed;
    hide CleanHistory, AdmissibleRun, Reads, ReadFaithful, ReadTiesAgree;
    StartsExact(s0);
    RunKeeps(s0, evs, limit);
    var s := Run(s0, evs, limit);
    Drains(s, polls, plan, last, p, limit);
    var t := Run(s, polls + [Quiet(true, plan, last)], limit);
    assert OnlyIn(t, p, pk, k) by { OnlyInLogs(s, t, p, pk, k); }
    TableReads(t, p, history, pk, k, batches);
    QueryReads(ReadAll(batches), history, pk, k);
  }

  lemma OnlyInLogs(s: State, t: State, p: Partition, pk: string, k: Cell)
    requires OnlyIn(s, p, pk, k) && t.logs == s.logs
    ensures OnlyIn(t, p, pk, k)
  {
    hide FeedRow, UriOf;
  }
}
