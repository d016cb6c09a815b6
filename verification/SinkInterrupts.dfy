/** An interrupt in the middle of one message: after its row is batched and before its marker is raised. */
module SinkInterrupts {
  import opened Wrappers
  import opened Sequences
  import opened Transform
  import opened SinkModel
  import opened SinkSafety
  import opened SinkProgress
  import opened SinkFaults

  /** The row is in the batch of its table; the marker of its partition is as before. */
  function HalfTake(s: State, uri: string, e: Entry): State {
    s.(batch := s.batch[uri := RowsAt(s.batch, uri) + [e]],
       order := if uri in s.batch then s.order else s.order + [uri])
  }

  /** The next record of `p`, as far as the row that the interrupted turn of the loop batches. */
  ghost predicate NextIs(s: State, p: Partition, uri: string, e: Entry) {
    && HasRecord(s, p) && UriOf(p.topic) == Some(uri)
    && e.source == p && e.offset == s.position[p]
    && FeedRow(p.topic, s.logs[p][e.offset]) == Some(e.row)
  }

  /** The state the final flush of the interrupted process finds. */
  function Halfway(s: State, uri: string, e: Entry): State
    requires e.source in s.position
  {
    HalfTake(Advance(s, e.source), uri, e)
  }

  function HalfInterrupt(s: State, uri: string, e: Entry, last: Plan): State
    requires e.source in s.position
  {
    Shutdown(Halfway(s, uri, e), last)
  }

  /** Batches none of whose marks are applied are written whole or not at all. */
  lemma {:induction false} WholeOrNot(tables: map<string, Table>, batch: map<string, seq<Entry>>,
      offsets: map<string, Marks>, order: seq<string>, outcomes: seq<Outcome>)
    requires Distinct(order)
    requires forall uri | uri in order ::
      RowsAt(batch, uri) != [] && !AlreadyApplied(TableAt(tables, uri), MarksAt(offsets, uri))
    ensures var (tables', ok) := FlushTables(tables, batch, offsets, order, outcomes);
      && (forall uri | uri in order ::
            && Either(TableAt(tables, uri), TableAt(tables', uri), RowsAt(batch, uri), MarksAt(offsets, uri))
            && (ok ==>
                  TableAt(tables', uri) == Appended(TableAt(tables, uri), RowsAt(batch, uri), MarksAt(offsets, uri))))
      && (forall uri | uri !in order :: TableAt(tables', uri) == TableAt(tables, uri))
    decreases |order|
  {
    hide AlreadyApplied;
    if order != [] {
      var uri := order[0];
      assert uri in order;
      var t := AppendTo(TableAt(tables, uri), RowsAt(batch, uri), MarksAt(offsets, uri), First(outcomes)).0;
      var next := Put(tables, uri, t);
      forall u | u in order[1..]
        ensures u in order && u != uri
      {
        var i :| 0 <= i < |order[1..]| && order[1..][i] == u;
        assert order[i + 1] == u;
      }
      assert forall u | u != uri :: TableAt(next, u) == TableAt(tables, u);
      WholeOrNot(next, batch, offsets, order[1..], Rest(outcomes));
      assert forall u | u in order :: u == uri || u in order[1..];
    }
  }

  lemma HalfwayIs(s: State, uri: string, e: Entry)
    requires e.source in s.position
    ensures var h := Halfway(s, uri, e);
      && h.tables == s.tables && h.offsets == s.offsets && h.committed == s.committed
      && h.batch == s.batch[uri := RowsAt(s.batch, uri) + [e]]
      && h.order == (if uri in s.batch then s.order else s.order + [uri])
  {
  }

  /** Nothing in the half-taken batch is applied yet. */
  lemma HalfFresh(s: State, uri: string, e: Entry)
    requires Inv(s) && e.source in s.position
    ensures var h := Halfway(s, uri, e);
      && Distinct(h.order) && (forall u :: u in h.order <==> u in s.batch || u == uri)
      && forall u | u in h.order ::
           RowsAt(h.batch, u) != [] && !AlreadyApplied(TableAt(h.tables, u), MarksAt(h.offsets, u))
  {
    hide FeedRow, UriOf, Data, OfKey, Durable, AllWait, AlreadyApplied, From, Halfway, Distinct, TableAt;
    HalfwayIs(s, uri, e);
    BatchFresh(s);
    NothingMarked(s, uri);
    if uri !in s.batch {
      OrderExtends(s.order, uri);
    }
  }

  lemma NothingMarked(s: State, uri: string)
    requires Shape(s)
    ensures uri !in s.batch ==> MarksAt(s.offsets, uri) == map[] && !AlreadyApplied(TableAt(s.tables, uri), map[])
  {
  }

  ghost predicate HalfWritten(s: State, uri: string, e: Entry, tables: map<string, Table>, ok: bool) {
    && Either(TableAt(s.tables, uri), TableAt(tables, uri), RowsAt(s.batch, uri) + [e], MarksAt(s.offsets, uri))
    && (ok ==>
          TableAt(tables, uri) == Appended(TableAt(s.tables, uri), RowsAt(s.batch, uri) + [e], MarksAt(s.offsets, uri)))
    && (forall u | u in s.batch && u != uri ::
          Either(TableAt(s.tables, u), TableAt(tables, u), RowsAt(s.batch, u), MarksAt(s.offsets, u)))
    && (forall u | u !in s.batch && u != uri :: TableAt(tables, u) == TableAt(s.tables, u))
  }

  lemma HalfWrites(s: State, uri: string, e: Entry, last: Plan)
    requires Inv(s) && e.source in s.position
    ensures var h := Halfway(s, uri, e);
      var (tables, ok) := FlushTables(h.tables, h.batch, h.offsets, h.order, last.appends);
      HalfWritten(s, uri, e, tables, ok)
  {
    hide Inv, FlushTables, AlreadyApplied, Appended, Halfway, Distinct, TableAt, Either;
    var h := Halfway(s, uri, e);
    HalfwayIs(s, uri, e);
    HalfFresh(s, uri, e);
    WholeOrNot(h.tables, h.batch, h.offsets, h.order, last.appends);
  }

  /** What the final flush leaves: its table writes, and committed offsets if it got that far. */
  lemma HalfOutcome(s: State, uri: string, e: Entry, last: Plan)
    requires e.source in s.position
    ensures var h, after := Halfway(s, uri, e), HalfInterrupt(s, uri, e, last);
      var written := FlushTables(h.tables, h.batch, h.offsets, h.order, last.appends);
      && after.logs == s.logs && after == Halt(after) && after.tables == written.0
      && (Told(h, last) ==>
            written.1 && e.source in after.committed && after.committed[e.source] == s.position[e.source] + 1)
      && (!Told(h, last) ==> after.committed == s.committed)
  {
    hide FlushTables, Flush, Told, RowsAt;
    var h := Halfway(s, uri, e);
    assert uri in h.batch;
    FlushIs(h, last);
    var written := FlushTables(h.tables, h.batch, h.offsets, h.order, last.appends);
    EndedShape(h, written.0, written.1, last.commit);
    assert h.stored[e.source] == s.position[e.source] + 1;
  }

  /** If the append did not happen, the stores are as exact as before. */
  lemma HalfUnwritten(s: State, p: Partition, uri: string, e: Entry, last: Plan)
    requires Inv(s) && NextIs(s, p, uri, e)
    requires var h := Halfway(s, uri, e);
      TableAt(FlushTables(h.tables, h.batch, h.offsets, h.order, last.appends).0, uri) == TableAt(s.tables, uri)
    ensures Inv(HalfInterrupt(s, uri, e, last))
  {
    hide Durable, Pending, FlushTables, NextIs, Halfway, Appended, HalfInterrupt, Told, CommittedSafe, TableAt;
    assert e.source in s.position by { NextParts(s, p, uri, e); }
    var h := Halfway(s, uri, e);
    var (tables, ok) := FlushTables(h.tables, h.batch, h.offsets, h.order, last.appends);
    HalfWrites(s, uri, e, last);
    HalfOutcome(s, uri, e, last);
    assert !ok by { Longer(TableAt(s.tables, uri), RowsAt(s.batch, uri) + [e], MarksAt(s.offsets, uri)); }
    var wrote := s.(tables := tables);
    PartWayStart(s);
    BatchFresh(s);
    forall u | u in s.batch
      ensures TableAt(s.tables, u) != Appended(TableAt(s.tables, u), RowsAt(s.batch, u), MarksAt(s.offsets, u))
    {
      Longer(TableAt(s.tables, u), RowsAt(s.batch, u), MarksAt(s.offsets, u));
    }
    CommittedStaysSafe(s, s, wrote);
    PartWayDurable(s, wrote);
    HaltKeeps(wrote);
    assert HalfInterrupt(s, uri, e, last) == Halt(wrote);
  }

  lemma Longer(t: Table, rows: seq<Entry>, marks: Marks)
    requires rows != []
    ensures Appended(t, rows, marks) != t
  {
    assert |Appended(t, rows, marks).rows| > |t.rows|;
  }

  lemma NextParts(s: State, p: Partition, uri: string, e: Entry)
    requires NextIs(s, p, uri, e)
    ensures e.source == p && HasRecord(s, p) && e.offset == s.position[p]
    ensures Contribution(p, s.logs[p], e.offset) == [e] && UriOf(p.topic) == Some(uri)
  {
    hide FeedRow, UriOf;
  }

  /** If it did, the table holds the row above the marker of its partition. */
  lemma HalfAbove(s: State, p: Partition, uri: string, e: Entry)
    requires Inv(s) && NextIs(s, p, uri, e)
    ensures Next(TableFor(s, p), p) <= e.offset
    ensures var t := Appended(TableFor(s, p), RowsFor(s, p) + [e], MarksFor(s, p));
      Next(t, p) <= e.offset && !Holds(p, s.logs[p], t) && Data(p, s.logs[p], Next(t, p), e.offset) == []
  {
    hide FeedRow, UriOf, Data, OfKey, Durable, Shape, Contribution;
    NextParts(s, p, uri, e);
    BelowPosition(s, p);
    var log, rows, marks := s.logs[p], RowsFor(s, p), MarksFor(s, p);
    assert Waits(p, log, TableFor(s, p), rows, marks, s.position[p]);
    MarkerLands(p, log, TableFor(s, p), rows, marks, s.position[p]);
    var t := Appended(TableFor(s, p), rows + [e], marks);
    assert Next(t, p) == Next(Appended(TableFor(s, p), rows, marks), p);
    assert t.rows[|t.rows| - 1] == e;
    OfKeyIn(t.rows, BySource, p);
    DataExact(p, log, 0, Next(t, p));
  }

  /** The row was not in Delta before the interrupted process flushed. */
  lemma NotYet(s: State, p: Partition, uri: string, e: Entry)
    requires Inv(s) && NextIs(s, p, uri, e)
    ensures e !in TableFor(s, p).rows
  {
    hide FeedRow, UriOf, Data, OfKey, Pending, CommittedSafe, Owned, Contribution;
    HalfAbove(s, p, uri, e);
    NextParts(s, p, uri, e);
    OfKeyIn(TableFor(s, p).rows, BySource, p);
    assert Holds(p, s.logs[p], TableFor(s, p));
    DataExact(p, s.logs[p], 0, Next(TableFor(s, p), p));
  }

  /** An unmarked partition's committed offset does not pass its next data record. */
  lemma UnmarkedCommit(s: State, p: Partition, uri: string, e: Entry)
    requires Inv(s) && NextIs(s, p, uri, e) && p in s.committed && p !in TableFor(s, p).markers
    ensures s.committed[p] <= e.offset
  {
    hide FeedRow, UriOf, Data, OfKey, Pending, AllHold, Owned, Contribution;
    NextParts(s, p, uri, e);
    assert Covered(p, s.logs[p], TableFor(s, p), s.committed[p]);
    if s.committed[p] > e.offset {
      OneRecord(p, s.logs[p], e.offset);
      NoDataInside(p, s.logs[p], 0, s.committed[p], e.offset, e.offset + 1);
    }
  }

  /** With these outcomes, a flush in this order reaches the append to `uri`, and that append takes effect. */
  predicate Lands(order: seq<string>, uri: string, outcomes: seq<Outcome>) {
    && order != []
    && if order[0] == uri then First(outcomes) != Failed
       else First(outcomes) == Done && Lands(order[1..], uri, Rest(outcomes))
  }

  /** The order of the half-taken batch's tables. */
  function HalfOrder(s: State, uri: string): seq<string> {
    if uri in s.batch then s.order else s.order + [uri]
  }

  lemma {:induction false} LandsExactly(tables: map<string, Table>, batch: map<string, seq<Entry>>,
      offsets: map<string, Marks>, order: seq<string>, outcomes: seq<Outcome>, own: string)
    requires Distinct(order) && own in order
    requires forall uri | uri in order ::
      RowsAt(batch, uri) != [] && !AlreadyApplied(TableAt(tables, uri), MarksAt(offsets, uri))
    ensures TableAt(FlushTables(tables, batch, offsets, order, outcomes).0, own) ==
      if Lands(order, own, outcomes) then Appended(TableAt(tables, own), RowsAt(batch, own), MarksAt(offsets, own))
      else TableAt(tables, own)
    decreases |order|
  {
    hide AlreadyApplied, Appended;
    var uri := order[0];
    assert uri in order;
    var t := AppendTo(TableAt(tables, uri), RowsAt(batch, uri), MarksAt(offsets, uri), First(outcomes)).0;
    var next := Put(tables, uri, t);
    assert forall u | u != uri :: TableAt(next, u) == TableAt(tables, u);
    forall u | u in order[1..]
      ensures u in order && u != uri
    {
      var i :| 0 <= i < |order[1..]| && order[1..][i] == u;
      assert order[i + 1] == u;
    }
    if own == uri {
      WholeOrNot(next, batch, offsets, order[1..], Rest(outcomes));
    } else {
      assert own in order[1..] by {
        var i :| 0 <= i < |order| && order[i] == own;
        assert order[1..][i - 1] == own;
      }
      LandsExactly(next, batch, offsets, order[1..], Rest(outcomes), own);
    }
  }

  lemma HalfLands(s: State, uri: string, e: Entry, last: Plan)
    requires Inv(s) && e.source in s.position
    ensures TableAt(HalfInterrupt(s, uri, e, last).tables, uri) ==
      if Lands(HalfOrder(s, uri), uri, last.appends)
      then Appended(TableAt(s.tables, uri), RowsAt(s.batch, uri) + [e], MarksAt(s.offsets, uri))
      else TableAt(s.tables, uri)
  {
    hide Inv, FlushTables, Appended, Halfway, HalfInterrupt, Distinct, TableAt, AlreadyApplied, Lands, Told;
    var h := Halfway(s, uri, e);
    HalfwayIs(s, uri, e);
    HalfFresh(s, uri, e);
    HalfOutcome(s, uri, e, last);
    LandsExactly(h.tables, h.batch, h.offsets, h.order, last.appends, uri);
  }

  /** The offsets are committed with the half-taken batch. */
  predicate HalfCommits(s: State, uri: string, last: Plan) {
    AllDone(|HalfOrder(s, uri)|, last.appends) && last.commit != Failed
  }

  lemma HalfTold(s: State, uri: string, e: Entry, last: Plan)
    requires Inv(s) && e.source in s.position
    ensures Told(Halfway(s, uri, e), last) <==> HalfCommits(s, uri, last)
  {
    hide Inv, FlushTables, Appended, Halfway, Distinct, TableAt, AlreadyApplied, AllDone;
    var h := Halfway(s, uri, e);
    HalfwayIs(s, uri, e);
    HalfFresh(s, uri, e);
    WritesAll(h.tables, h.batch, h.offsets, h.order, last.appends);
    assert uri in h.batch;
  }

  /** Where a partition resumes if its offsets are not committed and what is pending is written. */
  function PendingResume(s: State, p: Partition): nat {
    if p in MarksFor(s, p) then MarksFor(s, p)[p] + 1 else Resume(s, p, {})
  }

  /**
   * Such an interrupt keeps exactly-once exactly when the last flush does not get to write the row; if it does, the
   * next start resumes past the row exactly when the offsets are committed and the partition has no marker, in Delta
   * or pending.
   */
  lemma HalfInterruptExact(s: State, p: Partition, uri: string, e: Entry, last: Plan)
    requires Inv(s) && NextIs(s, p, uri, e)
    ensures var after := HalfInterrupt(s, uri, e, last);
      && (Inv(after) <==> !Lands(HalfOrder(s, uri), uri, last.appends))
      && (Lands(HalfOrder(s, uri), uri, last.appends) ==>
            && TableFor(after, p) == Appended(TableFor(s, p), RowsFor(s, p) + [e], MarksFor(s, p))
            && (Resume(after, p, {}) > e.offset <==> HalfCommits(s, uri, last) && !Marked(s, p))
            && (Resume(after, p, {}) <= e.offset ==> Resume(after, p, {}) == PendingResume(s, p)))
  {
    hide Inv, FlushTables, NextIs, Halfway, HalfInterrupt, Told, Holds, Data, Contribution, FeedRow, UriOf, Resume,
      Lands, HalfCommits, Appended, TableAt, Marked, PendingResume;
    NextParts(s, p, uri, e);
    HalfOutcome(s, uri, e, last);
    HalfLands(s, uri, e, last);
    if Lands(HalfOrder(s, uri), uri, last.appends) {
      HalfAbove(s, p, uri, e);
      NotHeld(HalfInterrupt(s, uri, e, last), p);
      HalfTold(s, uri, e, last);
      HalfResume(s, p, uri, e, last);
    } else {
      HalfUnwritten(s, p, uri, e, last);
    }
  }

  lemma NotHeld(s: State, p: Partition)
    requires p in s.logs && !Holds(p, s.logs[p], TableFor(s, p))
    ensures !Inv(s)
  {
    hide Holds, TableFor;
  }

  lemma HalfResume(s: State, p: Partition, uri: string, e: Entry, last: Plan)
    requires Inv(s) && NextIs(s, p, uri, e)
    requires var after := HalfInterrupt(s, uri, e, last);
      TableFor(after, p) == Appended(TableFor(s, p), RowsFor(s, p) + [e], MarksFor(s, p))
    ensures var after := HalfInterrupt(s, uri, e, last);
      && (Resume(after, p, {}) > e.offset <==> Told(Halfway(s, uri, e), last) && !Marked(s, p))
      && (Resume(after, p, {}) <= e.offset ==> Resume(after, p, {}) == PendingResume(s, p))
  {
    hide Inv, FlushTables, NextIs, Halfway, HalfInterrupt, Told, Holds, Data, Contribution, FeedRow, TableFor, MarksFor,
      RowsFor;
    NextParts(s, p, uri, e);
    HalfOutcome(s, uri, e, last);
    HalfAbove(s, p, uri, e);
    if p !in TableFor(s, p).markers && p in s.committed {
      UnmarkedCommit(s, p, uri, e);
    }
  }

  /** When it resumes at or below the row, the restarted process writes it a second time. */
  lemma HalfInterruptDoubles(s: State, p: Partition, uri: string, e: Entry, last: Plan, limit: nat)
      returns (polls: seq<Event>)
    requires Inv(s) && NextIs(s, p, uri, e)
    requires Lands(HalfOrder(s, uri), uri, last.appends) && (!HalfCommits(s, uri, last) || Marked(s, p))
    requires forall o | PendingResume(s, p) <= o < e.offset && o < |s.logs[p]| :: s.logs[p][o] != Garbled
    ensures var started := Assign(HalfInterrupt(s, uri, e, last), {});
      && Undisturbed(started, polls, limit)
      && var t := Run(started, polls, limit);
      && p in t.logs && !ExactlyOnceIn(p, t.logs[p], TableFor(t, p))
      && exists marks :: TableFor(t, p).rows == Appended(TableFor(s, p), RowsFor(s, p) + [e] + [e], marks).rows
  {
    hide Inv, FlushTables, NextIs, Halfway, HalfInterrupt, Told, Holds, Data, OfKey, Contribution, FeedRow, UriOf,
      Resume, TableAt, ExactlyOnceIn, Lands, HalfCommits, Marked, PendingResume;
    NextParts(s, p, uri, e);
    var after := HalfInterrupt(s, uri, e, last);
    HalfOutcome(s, uri, e, last);
    HalfInterruptExact(s, p, uri, e, last);
    HalfAbove(s, p, uri, e);
    ResumesWithout(s, p, uri, e, after);
    var started := Assign(after, {});
    NextRow(s, p, uri, e);
    IdleFresh(started);
    var marks;
    polls, marks := Redeliver(started, p, e.offset, limit);
    assert e in RowsFor(s, p) + [e];
    OfKeyIn(TableFor(after, p).rows + [], BySource, p);
    Twice(p, s.logs[p], TableFor(after, p), [], e, marks);
    var rows := TableFor(s, p).rows;
    assert rows + (RowsFor(s, p) + [e]) + ([] + [e]) == rows + (RowsFor(s, p) + [e] + [e]);
    assert TableFor(Run(started, polls, limit), p).rows ==
      Appended(TableFor(s, p), RowsFor(s, p) + [e] + [e], marks).rows;
  }

  /** When it resumes past the row, the row is in Delta once, and stays there once whatever happens without a rewind. */
  lemma HalfInterruptOnce(s: State, p: Partition, uri: string, e: Entry, last: Plan, evs: seq<Event>, limit: nat)
    requires Inv(s) && NextIs(s, p, uri, e)
    requires Lands(HalfOrder(s, uri), uri, last.appends) && HalfCommits(s, uri, last) && !Marked(s, p)
    requires forall ev | ev in evs :: !RewindsTo(ev, p, e.offset)
    ensures Copies(TableFor(Run(HalfInterrupt(s, uri, e, last), evs, limit), p).rows, p, e.offset) == 1
  {
    hide Inv, FlushTables, NextIs, Halfway, HalfInterrupt, Told, Holds, Data, OfKey, Contribution, FeedRow, UriOf,
      Lands, HalfCommits, Run, PassedPending, TableFor, RowsFor, MarksFor;
    NextParts(s, p, uri, e);
    var after := HalfInterrupt(s, uri, e, last);
    HalfOutcome(s, uri, e, last);
    HalfTold(s, uri, e, last);
    HalfInterruptExact(s, p, uri, e, last);
    HalfCopies(s, p, uri, e);
    NothingPassed(after, p, e.offset);
    PassedForGood(after, evs, limit, p, e.offset, 1);
  }

  lemma HalfCopies(s: State, p: Partition, uri: string, e: Entry)
    requires Inv(s) && NextIs(s, p, uri, e)
    ensures Copies(TableFor(s, p).rows + (RowsFor(s, p) + [e]), p, e.offset) == 1
  {
    hide FeedRow, UriOf, Data, OfKey, Shape, CommittedSafe, Owned, Contribution, TableFor, RowsFor, MarksFor, NextIs;
    NextParts(s, p, uri, e);
    HalfAbove(s, p, uri, e);
    var log, t, rows, at := s.logs[p], TableFor(s, p), RowsFor(s, p), e.offset;
    assert Holds(p, log, t) && Waits(p, log, t, rows, MarksFor(s, p), s.position[p]);
    NothingAt(s, p, at);
    NoCopies(t.rows, p, at);
    DataExact(p, log, Next(t, p), at);
    OfKeyIn(rows, BySource, p);
    NoCopies(rows, p, at);
    CopiesConcat(t.rows, rows + [e], p, at);
    CopiesConcat(rows, [e], p, at);
    assert [e][..0] == [];
    assert Copies([e], p, at) == Copies([e][..0], p, at) + 1;
  }

  lemma NextRow(s: State, p: Partition, uri: string, e: Entry)
    requires NextIs(s, p, uri, e)
    ensures FeedRow(p.topic, s.logs[p][e.offset]) == Some(e.row) && e == Entry(p, e.offset, e.row)
  {
    hide FeedRow;
  }

  lemma IdleFresh(s: State)
    requires s.batch == map[] && s.order == []
    ensures AllFresh(s)
  {
  }

  /** No data lies between where the partition resumes and the half-taken record. */
  lemma ResumesWithout(s: State, p: Partition, uri: string, e: Entry, after: State)
    requires Inv(s) && NextIs(s, p, uri, e)
    requires TableFor(after, p) == Appended(TableFor(s, p), RowsFor(s, p) + [e], MarksFor(s, p))
    ensures forall o | Resume(after, p, {}) <= o < e.offset :: FeedRow(p.topic, s.logs[p][o]) == None
  {
    hide Inv, Holds, Data, Contribution, FeedRow, UriOf, Appended;
    NextParts(s, p, uri, e);
    HalfAbove(s, p, uri, e);
    var n, r := Next(TableFor(after, p), p), Resume(after, p, {});
    assert n <= r;
    NoDataInside(p, s.logs[p], n, e.offset, r, e.offset);
    DataExact(p, s.logs[p], r, e.offset);
  }

  // ---- An interrupt between the poll and the batch ----

  /** An interrupt before a data record is batched loses it for good exactly when the offsets are committed unmarked. */
  lemma LateInterruptLoses(s: State, p: Partition, last: Plan)
    requires Inv(s) && HasRecord(s, p) && Contribution(p, s.logs[p], s.position[p]) != []
    ensures Missed(LateInterrupt(s, p, last), p, s.position[p]) <==> CommitsOffsets(s, last) && !Marked(s, p)
  {
    hide Inv, Contribution, Told, CommitsOffsets, FeedRow, UriOf, LateInterrupt, Missed, Marked;
    CommitsExactly(s, last) by { InvShape(s); }
    if Told(s, last) {
      LateCommitted(s, p, last);
    } else {
      LateUncommitted(s, p, last);
    }
  }

  lemma LateCommitted(s: State, p: Partition, last: Plan)
    requires Inv(s) && HasRecord(s, p) && Contribution(p, s.logs[p], s.position[p]) != [] && Told(s, last)
    ensures Missed(LateInterrupt(s, p, last), p, s.position[p]) <==> !Marked(s, p)
  {
    hide Inv, Contribution, Told, FeedRow, UriOf, LateInterrupt, FlushTables, TableFor, Holds, Owned, NoEntry, Marked;
    var at := s.position[p];
    LateInterruptCommitted(s, p, last);
    CommittedOutcome(s, p, last);
    PartWayStart(s);
    WriteTables(s, s, last.appends);
    var after := LateInterrupt(s, p, last);
    var wrote := s.(tables := after.tables);
    PartWayDurable(s, wrote);
    SameTableFor(wrote, after, p);
    DataHasUri(p, s.logs[p], at);
    assert Holds(p, s.logs[p], TableFor(wrote, p));
    NothingAt(wrote, p, at);
    LateHalted(s, p, last);
    LateMarkers(s, p, last);
    StoppedMissed(after, p, at);
  }

  lemma LateUncommitted(s: State, p: Partition, last: Plan)
    requires Inv(s) && HasRecord(s, p) && Contribution(p, s.logs[p], s.position[p]) != [] && !Told(s, last)
    ensures !Missed(LateInterrupt(s, p, last), p, s.position[p])
  {
    hide Contribution, Told, FeedRow, UriOf, LateInterrupt, Pending;
    hide AllHold, Owned, Covered, TableFor, PassedIn, PassedPending;
    var at, after := s.position[p], LateInterrupt(s, p, last);
    LateInterruptUncommitted(s, p, last);
    SameCommitted(s, p, last);
    if p in s.committed && s.committed[p] > at {
      CommitBelow(s, p, at);
      BelowPosition(s, p);
      assert false;
    }
  }

  lemma SameCommitted(s: State, p: Partition, last: Plan)
    requires HasRecord(s, p) && !Told(s, last)
    ensures LateInterrupt(s, p, last).committed == s.committed && LateInterrupt(s, p, last).logs == s.logs
  {
    hide FlushTables;
  }

  /** A committed offset past a data record means the record is written. */
  lemma CommitBelow(s: State, p: Partition, at: nat)
    requires CommittedSafe(s) && p in s.committed && s.committed[p] > at && p in s.logs && at < |s.logs[p]|
    requires Contribution(p, s.logs[p], at) != []
    ensures Next(TableFor(s, p), p) > at
  {
    hide FeedRow, UriOf, Data, Contribution, TableFor, Next;
    assert Covered(p, s.logs[p], TableFor(s, p), s.committed[p]);
    OneRecord(p, s.logs[p], at);
    if Next(TableFor(s, p), p) <= at {
      NoDataInside(p, s.logs[p], Next(TableFor(s, p), p), s.committed[p], at, at + 1);
    }
  }

  lemma LateHalted(s: State, p: Partition, last: Plan)
    requires HasRecord(s, p)
    ensures LateInterrupt(s, p, last) == Halt(LateInterrupt(s, p, last))
  {
    hide Flush;
  }

  lemma DataHasUri(p: Partition, log: seq<Payload>, at: nat)
    requires at < |log| && Contribution(p, log, at) != []
    ensures UriOf(p.topic).Some?
  {
    hide FeedRow, UriOf;
    FeedTopic(p.topic, log[at]);
  }

  lemma StoppedMissed(s: State, p: Partition, o: nat)
    requires s == Halt(s) && p in s.logs && o < |s.logs[p]| && UriOf(p.topic).Some?
    requires NoEntry(TableFor(s, p).rows, p, o)
    requires p in s.committed && s.committed[p] == o + 1 && Next(TableFor(s, p), p) <= o
    ensures Missed(s, p, o) <==> p !in TableFor(s, p).markers
  {
    hide UriOf, TableFor, NoEntry;
    NoCopies(TableFor(s, p).rows, p, o);
    NothingPassed(s, p, o);
  }

  // ---- From empty stores ----

  lemma {:induction false} CalmDone(n: nat)
    ensures AllDone(n, [])
  {
    if n > 0 {
      CalmDone(n - 1);
    }
  }

  /** The sink has just started over these logs. */
  function Started(logs: map<Partition, seq<Payload>>): State {
    State(logs, map[], map[], true, map p | p in logs :: 0, map[], map[], map[], [], 0)
  }

  lemma StartedIs(logs: map<Partition, seq<Payload>>, limit: nat)
    ensures var s0 := State(logs, map[], map[], false, map[], map[], map[], map[], [], 0);
      Initial(s0) && Step(s0, Rebalance({}), limit) == Started(logs) && Inv(Started(logs))
  {
    hide UriOf, FeedRow, Inv;
    var s0 := State(logs, map[], map[], false, map[], map[], map[], map[], [], 0);
    StartsExact(s0);
    ReadableAssign(s0);
    StepKeeps(s0, Rebalance({}), limit);
    assert Step(s0, Rebalance({}), limit).position == Started(logs).position;
  }

  /** Just started, with one row of partition `q` batched. */
  function OnePending(logs: map<Partition, seq<Payload>>, q: Partition, uri: string, row: Row): State
    requires q in logs
  {
    Take(Advance(Started(logs), q), uri, Entry(q, 0, row))
  }

  lemma DeliversFirst(logs: map<Partition, seq<Payload>>, q: Partition, uri: string, row: Row, limit: nat)
    requires q in logs && logs[q] != [] && FeedRow(q.topic, logs[q][0]) == Some(row) && UriOf(q.topic) == Some(uri)
    requires limit >= 2
    ensures Step(Started(logs), Deliver(q, false, CALM, CALM), limit) == OnePending(logs, q, uri, row)
    ensures Inv(OnePending(logs, q, uri, row))
  {
    hide FeedRow, UriOf, FlushOrStop, Inv;
    GarbledCarriesNothing(q.topic);
    StartedIs(logs, limit);
    StepKeeps(Started(logs), Deliver(q, false, CALM, CALM), limit);
  }

  lemma OnePendingIs(logs: map<Partition, seq<Payload>>, q: Partition, uri: string, row: Row, p: Partition)
    requires q in logs && p in logs && p != q
    ensures var s := OnePending(logs, q, uri, row);
      s.batch != map[] && s.logs == logs && p in s.position && s.position[p] == 0 && !Marked(s, p)
  {
    hide UriOf;
  }

  /** From empty stores, one record of each of two partitions: the first one's record is polled and lost for good. */
  lemma PolledRecordLost(p: Partition, q: Partition, x: Payload, y: Payload, row: Row, uri: string, limit: nat)
    requires p != q && limit >= 2 && FeedRow(p.topic, x).Some?
    requires FeedRow(q.topic, y) == Some(row) && UriOf(q.topic) == Some(uri)
    ensures var logs := map[p := [x], q := [y]];
      var s := Step(Started(logs), Deliver(q, false, CALM, CALM), limit);
      HasRecord(s, p) && s.position[p] == 0 && Missed(LateInterrupt(s, p, CALM), p, 0)
  {
    hide FeedRow, UriOf, Inv, Step, Missed, LateInterrupt, OnePending, Marked, Contribution;
    var logs := map[p := [x], q := [y]];
    DeliversFirst(logs, q, uri, row, limit);
    OnePendingIs(logs, q, uri, row, p);
    var s := OnePending(logs, q, uri, row);
    CalmDone(|s.order|);
    assert Contribution(p, logs[p], 0) != [] by { OneContribution(p, logs[p], 0); }
    LateInterruptLoses(s, p, CALM);
  }

  lemma OneContribution(p: Partition, log: seq<Payload>, o: nat)
    requires o < |log| && FeedRow(p.topic, log[o]).Some?
    ensures Contribution(p, log, o) != []
  {
    hide FeedRow;
  }

  /** From empty stores and one record: interrupted before its marker is raised, and uncommitted, it is doubled. */
  lemma UnmarkedRowDoubles(p: Partition, x: Payload, row: Row, uri: string, limit: nat) returns (polls: seq<Event>)
    requires FeedRow(p.topic, x) == Some(row) && UriOf(p.topic) == Some(uri)
    ensures var s, e := Started(map[p := [x]]), Entry(p, 0, row);
      var started := Assign(HalfInterrupt(s, uri, e, Plan([], Failed)), {});
      && Undisturbed(started, polls, limit)
      && TableFor(Run(started, polls, limit), p).rows == [e, e]
  {
    hide FeedRow, UriOf, Inv, HalfInterrupt, Run, Undisturbed, ExactlyOnceIn;
    var s, e, last := Started(map[p := [x]]), Entry(p, 0, row), Plan([], Failed);
    StartedIs(map[p := [x]], limit);
    assert TableFor(s, p) == EMPTY_TABLE && RowsFor(s, p) == [];
    assert HalfOrder(s, uri) == [uri];
    assert Lands([uri], uri, []);
    polls := HalfInterruptDoubles(s, p, uri, e, last, limit);
    var marks: Marks :|
      TableFor(Run(Assign(HalfInterrupt(s, uri, e, last), {}), polls, limit), p).rows ==
      Appended(TableFor(s, p), RowsFor(s, p) + [e] + [e], marks).rows;
    assert [] + ([] + [e] + [e]) == [e, e];
  }
}
