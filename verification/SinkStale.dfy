/** A start whose markers cannot all be read: old records are delivered again, and exactly when that harms Delta. */
module SinkStale {
  import opened Wrappers
  import opened Sequences
  import opened Transform
  import opened SinkModel
  import opened SinkSafety
  import opened SinkProgress
  import opened SinkFaults

  /** Nothing is pending. */
  ghost predicate Idle(s: State) {
    s.batch == map[] && s.offsets == map[] && s.order == [] && s.count == 0
  }

  // ---- A batch of one stale record is refused ----

  lemma OneRow(s: State, uri: string, e: Entry)
    requires Idle(s)
    ensures var t := Take(s, uri, e);
      && t.batch == map[uri := [e]] && t.offsets == map[uri := map[e.source := e.offset]] && t.order == [uri]
      && t.count == 1 && t.tables == s.tables && t.logs == s.logs && t.running == s.running && t.position == s.position
      && t.stored == s.stored && t.committed == s.committed
  {
    assert [] + [e] == [e] && [] + [uri] == [uri];
  }

  /** A flush of one table with one row, whatever its outcome. */
  lemma FlushRow(s: State, uri: string, e: Entry, plan: Plan)
    requires s.batch == map[uri := [e]] && s.offsets == map[uri := map[e.source := e.offset]] && s.order == [uri]
    ensures var (t, ok) := AppendTo(TableAt(s.tables, uri), [e], map[e.source := e.offset], First(plan.appends));
      Flush(s, plan) == Ended(s, Put(s.tables, uri, t), ok, plan.commit)
  {
    hide AppendTo, Put, Ended;
    var (t, ok) := AppendTo(TableAt(s.tables, uri), [e], map[e.source := e.offset], First(plan.appends));
    assert s.order[1..] == [];
    OneTable(s.tables, s.batch, s.offsets, s.order, plan.appends);
  }

  lemma OneTable(tables: map<string, Table>, batch: map<string, seq<Entry>>, offsets: map<string, Marks>,
                 order: seq<string>, outcomes: seq<Outcome>)
    requires |order| == 1
    ensures var (t, ok) := AppendTo(TableAt(tables, order[0]), RowsAt(batch, order[0]), MarksAt(offsets, order[0]),
                                    First(outcomes));
      FlushTables(tables, batch, offsets, order, outcomes) == (Put(tables, order[0], t), ok)
  {
    hide AppendTo, Put;
    var uri := order[0];
    var (t, ok) := AppendTo(TableAt(tables, uri), RowsAt(batch, uri), MarksAt(offsets, uri), First(outcomes));
    assert order[1..] == [];
    assert FlushTables(Put(tables, uri, t), batch, offsets, [], Rest(outcomes)) == (Put(tables, uri, t), true);
  }

  lemma OldRefused(t: Table, e: Entry, o: Outcome)
    requires e.offset < Next(t, e.source)
    ensures AppendTo(t, [e], map[e.source := e.offset], o).0 == t
    ensures o == Done ==> AppendTo(t, [e], map[e.source := e.offset], o).1
  {
    assert e.source in map[e.source := e.offset];
  }

  /** Delivered alone and flushed, an old record leaves the tables as they are. */
  lemma OldAlone(s: State, p: Partition, limit: nat)
    requires s.running && Idle(s) && HasRecord(s, p)
    requires FeedRow(p.topic, s.logs[p][s.position[p]]).Some? && s.position[p] < Next(TableFor(s, p), p)
    ensures var t := Step(s, Deliver(p, true, CALM, CALM), limit);
      && t.tables == s.tables && t.logs == s.logs && t.running && Idle(t)
      && t.position == s.position[p := s.position[p] + 1]
  {
    hide FeedRow, UriOf, FlushTables, Take, AppendTo, Flush, Put;
    var at := s.position[p];
    FeedTopic(p.topic, s.logs[p][at]);
    GarbledCarriesNothing(p.topic);
    var uri, e := UriOf(p.topic).value, Entry(p, at, FeedRow(p.topic, s.logs[p][at]).value);
    var moved := Advance(s, p);
    OneRow(moved, uri, e);
    var taken := Take(moved, uri, e);
    FlushRow(taken, uri, e, CALM);
    OldRefused(TableAt(s.tables, uri), e, Done);
    PutSame(s.tables, uri);
  }

  lemma PutSame(tables: map<string, Table>, uri: string)
    ensures Put(tables, uri, TableAt(tables, uri)) == tables
  {
  }

  // ---- With a larger batch, an old record gets in with a new one ----

  /** The last old record of `p` is next, and nothing is pending. */
  ghost predicate AtLastOld(s: State, t: State, p: Partition) {
    && t.tables == s.tables && t.logs == s.logs && t.running && Idle(t)
    && p in t.logs && p in t.position && t.position[p] < Next(TableFor(t, p), p) <= |t.logs[p]|
    && FeedRow(p.topic, t.logs[p][t.position[p]]).Some?
    && Data(p, t.logs[p], t.position[p] + 1, Next(TableFor(t, p), p)) == []
  }

  lemma {:induction false} ToLastOld(s: State, p: Partition, limit: nat) returns (polls: seq<Event>)
    requires s.running && Idle(s) && p in s.logs && p in s.position && Next(TableFor(s, p), p) <= |s.logs[p]|
    requires Data(p, s.logs[p], s.position[p], Next(TableFor(s, p), p)) != []
    requires forall o | s.position[p] <= o < |s.logs[p]| :: s.logs[p][o] != Garbled
    ensures Undisturbed(s, polls, limit) && AtLastOld(s, Run(s, polls, limit), p)
    ensures Run(s, polls, limit).position[p] >= s.position[p]
    decreases |s.logs[p]| - s.position[p]
  {
    hide FeedRow, UriOf, Data, TableFor, Step, Calm;
    var n := Next(TableFor(s, p), p);
    var o := FirstData(p, s.logs[p], s.position[p], n);
    polls := SkipTo(s, p, o, limit);
    var t := Run(s, polls, limit);
    assert TableFor(t, p) == TableFor(s, p) by { SameTableFor(s, t, p); }
    if Data(p, s.logs[p], o + 1, n) != [] {
      var ev := Deliver(p, true, CALM, CALM);
      OldAlone(t, p, limit);
      var next := Step(t, ev, limit);
      assert TableFor(next, p) == TableFor(s, p) by { SameTableFor(s, next, p); }
      var rest := ToLastOld(next, p, limit);
      RunSnoc(s, polls, ev, limit);
      CalmEmpty();
      UndisturbedSnoc(s, polls, ev, limit);
      UndisturbedConcat(s, polls + [ev], rest, limit);
      polls := polls + [ev] + rest;
    }
  }

  lemma {:induction false} UndisturbedConcat(s: State, a: seq<Event>, b: seq<Event>, limit: nat)
    requires Undisturbed(s, a, limit) && Undisturbed(Run(s, a, limit), b, limit)
    ensures Undisturbed(s, a + b, limit) && Run(s, a + b, limit) == Run(Run(s, a, limit), b, limit)
    decreases |a|
  {
    hide Step, CalmPoll;
    if a == [] {
      assert a + b == b;
    } else {
      assert (a + b)[1..] == a[1..] + b;
      UndisturbedConcat(Step(s, a[0], limit), a[1..], b, limit);
    }
  }

  lemma {:induction false} AdmissibleConcat(s: State, a: seq<Event>, b: seq<Event>, limit: nat)
    requires AdmissibleRun(s, a, limit) && AdmissibleRun(Run(s, a, limit), b, limit)
    ensures AdmissibleRun(s, a + b, limit) && Run(s, a + b, limit) == Run(Run(s, a, limit), b, limit)
    decreases |a|
  {
    hide Step, Admissible;
    if a == [] {
      assert a + b == b;
    } else {
      assert (a + b)[1..] == a[1..] + b;
      AdmissibleConcat(Step(s, a[0], limit), a[1..], b, limit);
    }
  }

  /** One old row is held, its partition's next record is data that Delta does not have. */
  lemma NewWithOld(s: State, p: Partition, uri: string, stale: Entry, o: nat, limit: nat)
      returns (polls: seq<Event>, marks: Marks)
    requires s.running && p in s.position && p in s.logs && s.position[p] <= o < |s.logs[p]|
    requires UriOf(p.topic) == Some(uri)
    requires s.batch == map[uri := [stale]] && s.offsets == map[uri := map[p := stale.offset]] && s.order == [uri]
    requires stale.source == p && stale.offset < o && Next(TableFor(s, p), p) <= o
    requires forall x | s.position[p] <= x < o :: FeedRow(p.topic, s.logs[p][x]) == None && s.logs[p][x] != Garbled
    requires FeedRow(p.topic, s.logs[p][o]).Some?
    ensures Undisturbed(s, polls, limit)
    ensures var t := Run(s, polls, limit); var e := Entry(p, o, FeedRow(p.topic, s.logs[p][o]).value);
      t.logs == s.logs && TableFor(t, p) == Appended(TableFor(s, p), [stale] + [e], marks)
  {
    hide FeedRow, UriOf, Appended, FlushOrStop, Calm, Take;
    GarbledCarriesNothing(p.topic);
    var e := Entry(p, o, FeedRow(p.topic, s.logs[p][o]).value);
    polls := SkipTo(s, p, o, limit);
    var ready := Run(s, polls, limit);
    var moved, ev := Advance(ready, p), Deliver(p, true, CALM, CALM);
    var taken := Take(moved, uri, e);
    marks := map[p := o];
    assert AllFresh(taken) && RowsAt(taken.batch, uri) == [stale] + [e] && MarksAt(taken.offsets, uri) == marks by {
      TwoRowsFresh(moved, uri, stale, e);
    }
    CalmWrites(taken, uri);
    assert taken.tables == s.tables && uri in taken.batch && taken.logs == s.logs by { TakeTouches(moved, uri, e); }
    RunSnoc(s, polls, ev, limit);
    CalmEmpty();
    UndisturbedSnoc(s, polls, ev, limit);
    polls := polls + [ev];
  }

  lemma TwoRowsFresh(s: State, uri: string, stale: Entry, e: Entry)
    requires s.batch == map[uri := [stale]] && s.order == [uri]
    requires s.offsets == map[uri := map[stale.source := stale.offset]]
    requires e.source == stale.source && stale.offset < e.offset && Next(TableAt(s.tables, uri), e.source) <= e.offset
    ensures var t := Take(s, uri, e);
      AllFresh(t) && RowsAt(t.batch, uri) == [stale] + [e] && MarksAt(t.offsets, uri) == map[e.source := e.offset]
  {
    assert map[stale.source := stale.offset][e.source := e.offset] == map[e.source := e.offset];
    var t := Take(s, uri, e);
    assert MarksAt(t.offsets, uri) == map[e.source := e.offset] && RowsAt(t.batch, uri) == [stale] + [e];
    assert e.source in MarksAt(t.offsets, uri);
    assert Fresh(TableAt(s.tables, uri), [stale] + [e], map[e.source := e.offset]);
  }

  /** A row below the marker that is appended again is there twice. */
  lemma TwiceBefore(p: Partition, log: seq<Payload>, t: Table, stale: Entry, e: Entry, marks: Marks)
    requires stale.source == p && stale in OfKey(t.rows, BySource, p)
    ensures !ExactlyOnceIn(p, log, Appended(t, [stale] + [e], marks))
  {
    hide FeedRow;
    var rows := t.rows + ([stale] + [e]);
    OfKeyConcat(t.rows, [stale] + [e], BySource, p);
    OfKeyConcat([stale], [e], BySource, p);
    assert OfKey([stale][..0], BySource, p) == [];
    assert OfKey([stale], BySource, p) == [stale];
    var i :| 0 <= i < |OfKey(t.rows, BySource, p)| && OfKey(t.rows, BySource, p)[i] == stale;
    assert OfKey(rows, BySource, p)[i] == stale && OfKey(rows, BySource, p)[|OfKey(t.rows, BySource, p)|] == stale;
  }

  /** Starting with such a partition below its written data, a batch of two can double a row. */
  lemma StaleDoubles(s: State, unreadable: set<Partition>, p: Partition, limit: nat) returns (evs: seq<Event>)
    requires Inv(s) && s == Halt(s) && limit >= 2 && p in s.logs && Next(TableFor(s, p), p) <= |s.logs[p]|
    requires Data(p, s.logs[p], Resume(s, p, unreadable), Next(TableFor(s, p), p)) != []
    requires forall o | 0 <= o < |s.logs[p]| :: s.logs[p][o] != Garbled
    ensures Breaks(Assign(s, unreadable), p, evs, limit)
  {
    hide FeedRow, UriOf, Data, OfKey, Inv, AllFresh, ExactlyOnceIn, Step, Run, Undisturbed, AdmissibleRun, Appended;
    hide Resume, TableFor, AtLastOld;
    var a := Assign(s, unreadable);
    assert TableFor(a, p) == TableFor(s, p) by { SameTableFor(s, a, p); }
    var polls := ToLastOld(a, p, limit);
    var b := Run(a, polls, limit);
    LastOldParts(a, b, p);
    assert TableFor(b, p) == TableFor(s, p) by { SameTableFor(s, b, p); }
    var at := b.position[p];
    var row := FeedRow(p.topic, b.logs[p][at]).value;
    FeedTopic(p.topic, b.logs[p][at]);
    var uri, stale := UriOf(p.topic).value, Entry(p, at, row);
    var hold, more := Deliver(p, false, CALM, CALM), Produce(p, b.logs[p][at]);
    var c := Run(b, [hold, more], limit);
    HoldAndGrow(b, p, uri, stale, limit);
    var log := c.logs[p];
    assert TableFor(c, p) == TableFor(s, p) by { SameTableFor(s, c, p); }
    var o := NewAfter(p, b.logs[p], log, at, Next(TableFor(s, p), p));
    var rest, marks := NewWithOld(c, p, uri, stale, o, limit);
    HeldBefore(s, p, stale);
    var newer := Entry(p, o, FeedRow(p.topic, log[o]).value);
    TwiceBefore(p, Run(c, rest, limit).logs[p], TableFor(s, p), stale, newer, marks);
    UndisturbedAdmissible(a, polls, limit);
    UndisturbedAdmissible(c, rest, limit);
    AdmissibleConcat(a, polls, [hold, more], limit);
    AdmissibleConcat(a, polls + [hold, more], rest, limit);
    evs := polls + [hold, more] + rest;
  }

  lemma LastOldParts(s: State, t: State, p: Partition)
    requires AtLastOld(s, t, p)
    ensures t.tables == s.tables && t.logs == s.logs && t.running && Idle(t) && HasRecord(t, p)
    ensures t.position[p] < Next(TableFor(t, p), p) <= |t.logs[p]| && FeedRow(p.topic, t.logs[p][t.position[p]]).Some?
    ensures Data(p, t.logs[p], t.position[p] + 1, Next(TableFor(t, p), p)) == []
  {
    hide FeedRow, Data, UriOf;
  }

  /** The old record is held, and a copy of it arrives at the end of the log. */
  lemma HoldAndGrow(s: State, p: Partition, uri: string, stale: Entry, limit: nat)
    requires s.running && Idle(s) && HasRecord(s, p) && limit >= 2 && UriOf(p.topic) == Some(uri)
    requires stale.source == p && stale.offset == s.position[p]
    requires FeedRow(p.topic, s.logs[p][stale.offset]) == Some(stale.row)
    ensures var evs := [Deliver(p, false, CALM, CALM), Produce(p, s.logs[p][stale.offset])];
      var t := Run(s, evs, limit);
      && AdmissibleRun(s, evs, limit)
      && t.batch == map[uri := [stale]] && t.offsets == map[uri := map[p := stale.offset]] && t.order == [uri]
      && t.running && t.tables == s.tables && t.logs == s.logs[p := s.logs[p] + [s.logs[p][stale.offset]]]
      && p in t.position && t.position[p] == stale.offset + 1
  {
    hide FeedRow, UriOf, FlushOrStop, Take;
    GarbledCarriesNothing(p.topic);
    var moved := Advance(s, p);
    OneRow(moved, uri, stale);
    var held := Step(s, Deliver(p, false, CALM, CALM), limit);
    assert held == Take(moved, uri, stale);
    var evs := [Deliver(p, false, CALM, CALM), Produce(p, s.logs[p][stale.offset])];
    assert evs[1..][1..] == [] && evs[1..][0] == evs[1];
    var t := Step(held, evs[1], limit);
    assert Run(t, evs[1..][1..], limit) == t && AdmissibleRun(t, evs[1..][1..], limit);
    assert Run(held, evs[1..], limit) == t && AdmissibleRun(held, evs[1..], limit);
  }

  /** After the last old record, the next data record of the grown log is new. */
  lemma NewAfter(p: Partition, log: seq<Payload>, grown: seq<Payload>, at: nat, n: nat) returns (o: nat)
    requires at < n <= |log| && grown == log + [log[at]] && Data(p, log, at + 1, n) == []
    requires FeedRow(p.topic, log[at]).Some? && forall x | 0 <= x < |log| :: log[x] != Garbled
    ensures n <= o < |grown| && FeedRow(p.topic, grown[o]).Some?
    ensures forall x | at + 1 <= x < o :: FeedRow(p.topic, grown[x]) == None && grown[x] != Garbled
  {
    hide FeedRow, Data;
    DataGrows(p, log, [log[at]], at + 1, n);
    DataExact(p, grown, at + 1, |grown|);
    assert grown[|log|] == log[at];
    o := FirstData(p, grown, at + 1, |grown|);
    DataExact(p, grown, at + 1, n);
  }

  lemma HeldBefore(s: State, p: Partition, e: Entry)
    requires Inv(s) && p in s.logs && e.source == p && e.offset < Next(TableFor(s, p), p) <= |s.logs[p]|
    requires FeedRow(p.topic, s.logs[p][e.offset]) == Some(e.row)
    ensures e in OfKey(TableFor(s, p).rows, BySource, p)
  {
    hide FeedRow, UriOf, OfKey, Data, TableFor, Pending, Owned, CommittedSafe;
    assert Holds(p, s.logs[p], TableFor(s, p));
    DataExact(p, s.logs[p], 0, Next(TableFor(s, p), p));
  }

  // ---- With batches of one, the marker refuses every old record ----

  /** Every position is safe to commit. */
  ghost predicate Stocked(s: State) {
    && (forall p | p in s.position :: p in s.logs && Covered(p, s.logs[p], TableFor(s, p), s.position[p]))
    && (forall p | p in s.stored :: p in s.position && s.stored[p] == s.position[p])
  }

  /** Between turns: the stores are exact, nothing is pending, positions may be below what Delta holds. */
  ghost predicate Loose(s: State) {
    Durable(s) && Stocked(s) && s.batch == map[] && s.offsets == map[] && s.order == []
  }

  /** The tables once the row is in: unchanged if Delta already had it. */
  function WithRow(tables: map<string, Table>, uri: string, e: Entry): map<string, Table> {
    var t := TableAt(tables, uri);
    if e.offset < Next(t, e.source) then tables
    else Put(tables, uri, Appended(t, [e], map[e.source := e.offset]))
  }

  lemma AppendOne(tables: map<string, Table>, now: map<string, Table>, uri: string, e: Entry, o: Outcome)
    requires now == tables || now == WithRow(tables, uri, e)
    ensures var (t, ok) := AppendTo(TableAt(now, uri), [e], map[e.source := e.offset], o);
      && (Put(now, uri, t) == now || Put(now, uri, t) == WithRow(tables, uri, e))
      && (ok ==> Put(now, uri, t) == WithRow(tables, uri, e))
  {
    assert e.source in map[e.source := e.offset];
    assert |Appended(TableAt(tables, uri), [e], map[e.source := e.offset]).rows| > |TableAt(tables, uri).rows|;
  }

  lemma OtherPartition(q: Partition, log: seq<Payload>, t: Table, e: Entry, c: nat)
    requires e.source != q
    ensures var t' := Appended(t, [e], map[e.source := e.offset]);
      (Holds(q, log, t) <==> Holds(q, log, t')) && (Covered(q, log, t, c) <==> Covered(q, log, t', c))
  {
    hide FeedRow, Data;
    OfKeyConcat(t.rows, [e], BySource, q);
    assert OfKey([e][..0], BySource, q) == [];
  }

  /** Writing the next data record of `p` keeps the stores exact and makes the position past it safe. */
  lemma OwnPartition(p: Partition, log: seq<Payload>, t: Table, e: Entry)
    requires Holds(p, log, t) && e.offset < |log| && Covered(p, log, t, e.offset) && Next(t, p) <= e.offset
    requires Contribution(p, log, e.offset) == [e] && e.source == p
    ensures var t' := Appended(t, [e], map[p := e.offset]);
      Holds(p, log, t') && Covered(p, log, t', e.offset + 1) &&
      forall c: nat | Covered(p, log, t, c) :: Covered(p, log, t', c)
  {
    hide FeedRow, Data, Contribution;
    EmptyRange(p, log, e.offset, Next(t, p));
    OfNothing(p);
    TakeKeeps(p, log, t, [], map[], e.offset);
    assert [] + [e] == [e] && map[][p := e.offset] == map[p := e.offset];
    AppendKeeps(p, log, t, [e], map[p := e.offset], e.offset + 1);
  }

  /** `e` is the data record at the position of `p`. */
  ghost predicate IsNext(s: State, p: Partition, uri: string, e: Entry) {
    && HasRecord(s, p) && UriOf(p.topic) == Some(uri) && e.source == p && e.offset == s.position[p]
    && Contribution(p, s.logs[p], e.offset) == [e]
  }

  /** A new record at the position of `p` is written: what held or was safe stays so, and so does the next position. */
  lemma WriteNew(s: State, p: Partition, uri: string, e: Entry, t: State, q: Partition)
    requires AllHold(s) && p in s.logs && q in s.logs && UriOf(p.topic) == Some(uri)
    requires e.source == p && e.offset < |s.logs[p]| && Contribution(p, s.logs[p], e.offset) == [e]
    requires Covered(p, s.logs[p], TableFor(s, p), e.offset) && Next(TableFor(s, p), p) <= e.offset
    requires t.logs == s.logs
    requires t.tables == Put(s.tables, uri, Appended(TableAt(s.tables, uri), [e], map[e.source := e.offset]))
    ensures Holds(q, t.logs[q], TableFor(t, q))
    ensures forall c: nat | Covered(q, s.logs[q], TableFor(s, q), c) :: Covered(q, t.logs[q], TableFor(t, q), c)
    ensures q == p ==> Covered(p, t.logs[p], TableFor(t, p), e.offset + 1)
  {
    hide FeedRow, UriOf, Covered, Contribution, Holds, Appended, Put, TableFor, Next;
    TablesAfter(s, t, uri, e);
    assert Holds(q, s.logs[q], TableFor(s, q));
    if q == p {
      OwnPartition(p, s.logs[p], TableFor(s, p), e);
    } else if UriOf(q.topic) == Some(uri) {
      OtherPartition(q, s.logs[q], TableFor(s, q), e, 0);
      forall c: nat {
        OtherPartition(q, s.logs[q], TableFor(s, q), e, c);
      }
    }
  }

  /** Writing the record at the position of `p`, if it is new, and moving past it. */
  lemma WriteNext(s: State, p: Partition, uri: string, e: Entry, t: State)
    requires Loose(s) && IsNext(s, p, uri, e)
    requires t.logs == s.logs && t.tables == WithRow(s.tables, uri, e) && t.committed == s.committed
    requires t.position == s.position[p := e.offset + 1] && t.stored == s.stored[p := e.offset + 1]
    ensures Durable(t) && Stocked(t)
  {
    hide FeedRow, UriOf, Contribution, OfKey, Appended, Next, From, Put, Holds, Covered;
    var n := Next(TableFor(s, p), p);
    if e.offset < n {
      StaleCovered(s, p, e.offset);
      SameStores(s, t);
      assert forall q :: TableFor(t, q) == TableFor(s, q);
    } else {
      forall q | q in s.logs
        ensures Holds(q, t.logs[q], TableFor(t, q))
        ensures forall c: nat | Covered(q, s.logs[q], TableFor(s, q), c) :: Covered(q, t.logs[q], TableFor(t, q), c)
        ensures q == p ==> Covered(p, t.logs[p], TableFor(t, p), e.offset + 1)
      {
        WriteNew(s, p, uri, e, t, q);
      }
      assert Owned(t) by { OwnedAfter(s, t, uri, e); }
    }
  }

  lemma StaleCovered(s: State, p: Partition, at: nat)
    requires p in s.logs && at < |s.logs[p]| && at < Next(TableFor(s, p), p)
    ensures Covered(p, s.logs[p], TableFor(s, p), at + 1)
  {
    hide FeedRow, UriOf;
    EmptyRange(p, s.logs[p], Next(TableFor(s, p), p), at + 1);
  }

  lemma TablesAfter(s: State, t: State, uri: string, e: Entry)
    requires t.tables == Put(s.tables, uri, Appended(TableAt(s.tables, uri), [e], map[e.source := e.offset]))
    ensures forall q: Partition | UriOf(q.topic) == Some(uri) ::
      TableFor(t, q) == Appended(TableFor(s, q), [e], map[e.source := e.offset])
    ensures forall q: Partition | UriOf(q.topic) != Some(uri) :: TableFor(t, q) == TableFor(s, q)
  {
    hide UriOf, Appended;
  }

  lemma OwnedAfter(s: State, t: State, uri: string, e: Entry)
    requires Owned(s) && e.source in s.logs && UriOf(e.source.topic) == Some(uri) && t.logs == s.logs
    requires t.tables == Put(s.tables, uri, Appended(TableAt(s.tables, uri), [e], map[e.source := e.offset]))
    ensures Owned(t)
  {
    hide UriOf;
    forall u | u in t.tables
      ensures From(t.tables[u].rows, t.logs.Keys, u) && t.tables[u].markers.Keys <= t.logs.Keys
    {
      assert u in s.tables ==> From(s.tables[u].rows, s.logs.Keys, u);
    }
  }

  /** The loop holds the one row `e`, written or not; offsets are committed only once it is written. */
  ghost predicate Holding(s: State, t: State, p: Partition, uri: string, e: Entry) {
    && t.batch == map[uri := [e]] && t.offsets == map[uri := map[p := e.offset]] && t.order == [uri]
    && t.logs == s.logs
    && t.position == s.position[p := e.offset + 1] && t.stored == s.stored[p := e.offset + 1]
    && Durable(t)
    && ((t.tables == s.tables && t.committed == s.committed) || (t.tables == WithRow(s.tables, uri, e) && Stocked(t)))
  }

  lemma CommitStocked(s: State, t: State)
    requires Durable(s) && Stocked(s) && t.logs == s.logs && t.tables == s.tables && t.position == s.position
    requires t.stored == s.stored && (t.committed == s.committed || t.committed == s.committed + s.stored)
    ensures Durable(t) && Stocked(t)
  {
    hide FeedRow, UriOf, Data, OfKey, Covered, Holds, From;
    assert forall p :: TableFor(t, p) == TableFor(s, p);
  }

  /** The row is written in full, so every position is safe. */
  lemma WrittenStocked(s: State, t: State, p: Partition, uri: string, e: Entry)
    requires Loose(s) && IsNext(s, p, uri, e) && Holding(s, t, p, uri, e)
    ensures var mid := t.(tables := WithRow(s.tables, uri, e)); Durable(mid) && Stocked(mid)
  {
    hide FeedRow, UriOf, Durable, Stocked, WithRow, Contribution, Loose;
    var mid := t.(tables := WithRow(s.tables, uri, e));
    if t.tables == s.tables && t.committed == s.committed {
      WriteNext(s, p, uri, e, mid);
    } else {
      assert mid == t;
    }
  }

  /** The append of the one row, tried in a state that holds it. */
  lemma HoldingAppend(s: State, t: State, p: Partition, uri: string, e: Entry, o: Outcome)
    requires Loose(s) && IsNext(s, p, uri, e) && Holding(s, t, p, uri, e)
    ensures var (table, wrote) := AppendTo(TableAt(t.tables, uri), [e], map[e.source := e.offset], o);
      var tables := Put(t.tables, uri, table);
      && (tables == t.tables || tables == WithRow(s.tables, uri, e)) && (wrote ==> tables == WithRow(s.tables, uri, e))
  {
    hide FeedRow, UriOf, Durable, Stocked, WithRow, AppendTo, Put, TableAt, IsNext, Loose;
    AppendOne(s.tables, t.tables, uri, e, o);
  }

  /** What is left after the append and the commit that follows it. */
  lemma HoldingNext(s: State, t: State, p: Partition, uri: string, e: Entry, next: State, ok: bool, wrote: bool)
    requires Loose(s) && IsNext(s, p, uri, e) && Holding(s, t, p, uri, e)
    requires next.tables == t.tables || next.tables == WithRow(s.tables, uri, e)
    requires wrote ==> next.tables == WithRow(s.tables, uri, e)
    requires next.logs == t.logs && next.position == t.position && next.stored == t.stored
    requires next.committed == t.committed || (wrote && next.committed == t.committed + t.stored)
    requires if ok then wrote && next.batch == map[] && next.offsets == map[] && next.order == []
             else next.batch == t.batch && next.offsets == t.offsets && next.order == t.order
    ensures if ok then Loose(next) else Holding(s, next, p, uri, e)
  {
    hide FeedRow, UriOf, Durable, Stocked, WithRow, IsNext, Loose;
    if next.tables == WithRow(s.tables, uri, e) {
      WrittenStocked(s, t, p, uri, e);
      CommitStocked(t.(tables := next.tables), next);
      if ok {
        LooseIs(next);
      }
    } else {
      assert Durable(next) by { SameStores(t, next); }
    }
  }

  lemma HoldingBatch(s: State, t: State, p: Partition, uri: string, e: Entry)
    requires IsNext(s, p, uri, e) && Holding(s, t, p, uri, e)
    ensures t.batch == map[uri := [e]] && t.offsets == map[uri := map[e.source := e.offset]] && t.order == [uri]
  {
    hide FeedRow, UriOf, Durable, Stocked, WithRow, Contribution;
  }

  lemma HoldingFlush(s: State, t: State, p: Partition, uri: string, e: Entry, plan: Plan)
    requires Loose(s) && IsNext(s, p, uri, e) && Holding(s, t, p, uri, e)
    ensures var (next, ok) := Flush(t, plan);
      if ok then Loose(next) else Holding(s, next, p, uri, e)
  {
    hide FeedRow, UriOf, Flush, WithRow, AppendTo, Put, TableAt, IsNext, Ended, Loose, Holding;
    HoldingBatch(s, t, p, uri, e);
    FlushRow(t, uri, e, plan);
    HoldingAppend(s, t, p, uri, e, First(plan.appends));
    var (table, wrote) := AppendTo(TableAt(t.tables, uri), [e], map[e.source := e.offset], First(plan.appends));
    EndedShape(t, Put(t.tables, uri, table), wrote, plan.commit);
    var (next, ok) := Ended(t, Put(t.tables, uri, table), wrote, plan.commit);
    HoldingNext(s, t, p, uri, e, next, ok, wrote);
  }

  lemma LooseIs(s: State)
    requires Durable(s) && Stocked(s) && s.batch == map[] && s.offsets == map[] && s.order == []
    ensures Loose(s)
  {
    hide Durable, Stocked;
  }

  lemma HoldingEnds(s: State, t: State, p: Partition, uri: string, e: Entry, plan: Plan, last: Plan)
    requires Loose(s) && IsNext(s, p, uri, e) && Holding(s, t, p, uri, e)
    ensures Loose(FlushOrStop(t, plan, last))
  {
    hide Loose, Holding, IsNext, Flush, Halt;
    HoldingFlush(s, t, p, uri, e, plan);
    var (next, ok) := Flush(t, plan);
    if !ok {
      HoldingFlush(s, next, p, uri, e, last);
      var (end, done) := Flush(next, last);
      assert Durable(end) by { HoldingDurable(s, end, p, uri, e, done); }
      LooseHalt(end);
    }
  }

  lemma HoldingDurable(s: State, t: State, p: Partition, uri: string, e: Entry, done: bool)
    requires if done then Loose(t) else Holding(s, t, p, uri, e)
    ensures Durable(t)
  {
    hide Durable, Stocked;
  }

  lemma LooseHalt(s: State)
    requires Durable(s)
    ensures Loose(Halt(s))
  {
    hide FeedRow, UriOf;
    SameStores(s, Halt(s));
  }

  lemma LooseDeliver(s: State, p: Partition, elapsed: bool, plan: Plan, last: Plan, limit: nat)
    requires Loose(s) && HasRecord(s, p) && limit <= 1
    ensures Loose(DeliverStep(s, p, elapsed, plan, last, limit))
  {
    hide FeedRow, UriOf, FlushOrStop, Durable, Stocked, Halt, Contribution, Holding, Take;
    var at, moved := s.position[p], Advance(s, p);
    var payload := s.logs[p][at];
    GarbledCarriesNothing(p.topic);
    if payload == Garbled {
      assert Durable(moved) by { SameStores(s, moved); }
      LooseHalt(moved);
    } else if FeedRow(p.topic, payload) == None {
      assert Contribution(p, s.logs[p], at) == [] by { Carries(p, s.logs[p], at); }
      LooseAdvance(s, p);
    } else {
      FeedTopic(p.topic, payload);
      var uri, e := UriOf(p.topic).value, Entry(p, at, FeedRow(p.topic, payload).value);
      Carries(p, s.logs[p], at);
      var taken := Take(moved, uri, e);
      TakenHolding(s, p, uri, e);
      HoldingEnds(s, taken, p, uri, e, plan, last);
      assert taken.count >= limit by { TakeCounts(moved, uri, e); }
    }
  }

  lemma TakeCounts(s: State, uri: string, e: Entry)
    ensures Take(s, uri, e).count == s.count + 1
  {
  }

  lemma Carries(p: Partition, log: seq<Payload>, at: nat)
    requires at < |log|
    ensures Contribution(p, log, at) ==
      if FeedRow(p.topic, log[at]) == None then [] else [Entry(p, at, FeedRow(p.topic, log[at]).value)]
  {
    hide FeedRow;
  }

  lemma TakenHolding(s: State, p: Partition, uri: string, e: Entry)
    requires Loose(s) && IsNext(s, p, uri, e)
    ensures Holding(s, Take(Advance(s, p), uri, e), p, uri, e)
  {
    hide FeedRow, UriOf, Durable, Stocked, Contribution, WithRow;
    var taken := Take(Advance(s, p), uri, e);
    assert [] + [e] == [e] && [] + [uri] == [uri];
    SameStores(s, taken);
  }

  lemma LooseAdvance(s: State, p: Partition)
    requires Loose(s) && HasRecord(s, p) && Contribution(p, s.logs[p], s.position[p]) == []
    ensures Loose(Advance(s, p))
  {
    hide FeedRow, UriOf, Data, Contribution, Durable, Next, TableAt;
    var at, log, n, t := s.position[p], s.logs[p], Next(TableFor(s, p), p), Advance(s, p);
    SameStores(s, t);
    assert Covered(p, log, TableFor(s, p), at);
    OneRecord(p, log, at);
    if n <= at {
      DataSplit(p, log, n, at, at + 1);
    } else {
      EmptyRange(p, log, n, at + 1);
    }
    assert forall q :: TableFor(t, q) == TableFor(s, q);
  }

  lemma LooseAssign(s: State, unreadable: set<Partition>)
    requires Durable(s) && s.batch == map[] && s.offsets == map[] && s.order == []
    ensures Loose(Assign(s, unreadable))
  {
    hide FeedRow, UriOf, Resume, Covered, Durable;
    var t := Assign(s, unreadable);
    SameStores(s, t);
    assert forall q :: TableFor(t, q) == TableFor(s, q);
    forall p | p in t.position
      ensures p in t.logs && Covered(p, t.logs[p], TableFor(t, p), t.position[p])
    {
      ResumeCovered(s, p, unreadable);
    }
  }

  /** Steps that leave the process alone: what they do to the stores, they do without it. */
  lemma LooseStores(s: State, t: State, idle: State)
    requires Loose(s) && Inv(idle) && t.logs == idle.logs && t.tables == idle.tables && t.committed == idle.committed
    requires t.tables == s.tables && t.position == s.position && t.stored == s.stored
    requires t.batch == s.batch && t.offsets == s.offsets && t.order == s.order
    requires forall q | q in s.logs :: q in t.logs && s.logs[q] <= t.logs[q] && |t.logs[q]| <= |s.logs[q]| + 1
    ensures Loose(t)
  {
    hide FeedRow, UriOf, Data, OfKey, Holds, Next, Durable, Pending, TableFor;
    SameStores(idle, t);
    forall q | q in t.position
      ensures q in t.logs && Covered(q, t.logs[q], TableFor(t, q), t.position[q])
    {
      SameTableFor(s, t, q);
      GrownCovered(q, s.logs[q], t.logs[q], TableFor(s, q), s.position[q]);
    }
  }

  lemma GrownCovered(p: Partition, log: seq<Payload>, grown: seq<Payload>, t: Table, at: nat)
    requires Covered(p, log, t, at) && log <= grown && |grown| <= |log| + 1
    ensures Covered(p, grown, t, at)
  {
    hide FeedRow, Data;
    if grown != log {
      assert grown == log + [grown[|log|]];
      LogGrows(p, log, grown[|log|], t, [], map[], at);
    }
  }

  lemma LooseGrows(s: State, p: Partition, x: Payload)
    requires Loose(s)
    ensures Loose(Step(s, Produce(p, x), 0))
  {
    hide Loose, Inv, Durable;
    assert Durable(s) by { LooseParts(s); }
    HaltKeeps(s);
    ProduceKeeps(Halt(s), p, x);
    LooseStores(s, Step(s, Produce(p, x), 0), Step(Halt(s), Produce(p, x), 0));
  }

  lemma AdmissibleHalted(s: State, p: Partition, offset: nat)
    requires Admissible(s, Reset(p, offset))
    ensures Admissible(Halt(s), Reset(p, offset))
  {
    hide Data, Next, TableFor;
    SameTableFor(s, Halt(s), p);
  }

  lemma LooseReset(s: State, p: Partition, offset: nat)
    requires Loose(s) && Admissible(s, Reset(p, offset))
    ensures Loose(Step(s, Reset(p, offset), 0))
  {
    hide Loose, Inv, Durable, Admissible, Step;
    assert Durable(s) by { LooseParts(s); }
    HaltKeeps(s);
    AdmissibleHalted(s, p, offset);
    ResetKeeps(Halt(s), p, offset);
    ResetIs(s, p, offset, 0);
    ResetIs(Halt(s), p, offset, 0);
    LooseStores(s, Step(s, Reset(p, offset), 0), Step(Halt(s), Reset(p, offset), 0));
  }

  lemma LooseStep(s: State, ev: Event, limit: nat)
    requires Loose(s) && limit <= 1 && Admissible(s, ev)
    ensures Loose(Step(s, ev, limit))
  {
    hide Loose, DeliverStep, Halt, Assign, ResumesPast, Data, Next, TableFor;
    assert Durable(s) && s.batch == map[] && s.offsets == map[] && s.order == [] by { LooseParts(s); }
    match ev
    case Quiet(elapsed, plan, last) =>
    case Notice =>
    case Fatal(last) => LooseHalt(s);
    case Deliver(p, elapsed, plan, last) =>
      if HasRecord(s, p) {
        LooseDeliver(s, p, elapsed, plan, last, limit);
      }
    case Interrupt(last) => LooseHalt(s);
    case Kill => LooseHalt(s);
    case Rebalance(unreadable) => LooseAssign(s, unreadable);
    case Produce(p, x) => LooseGrows(s, p, x);
    case Reset(p, offset) => LooseReset(s, p, offset);
  }

  lemma LooseParts(s: State)
    requires Loose(s)
    ensures Durable(s) && s.batch == map[] && s.offsets == map[] && s.order == []
  {
  }

  lemma {:induction false} LooseRun(s: State, evs: seq<Event>, limit: nat)
    requires Loose(s) && limit <= 1 && AdmissibleRun(s, evs, limit)
    ensures Loose(Run(s, evs, limit))
    decreases |evs|
  {
    hide Loose, Admissible, Step;
    if evs != [] {
      LooseStep(s, evs[0], limit);
      LooseRun(Step(s, evs[0], limit), evs[1..], limit);
    }
  }

  lemma LooseExact(s: State, p: Partition)
    requires Loose(s) && p in s.logs
    ensures ExactlyOnceIn(p, s.logs[p], TableFor(s, p))
  {
    hide FeedRow, UriOf, OfKey, Data, TableFor, Stocked, Owned, CommittedSafe;
    HoldsExactly(p, s.logs[p], TableFor(s, p));
  }

  /**
   * A start can break exactly-once in Delta exactly when batches may hold two rows and some partition with an
   * unreadable marker resumes at or below a data record that Delta already holds.
   */
  lemma StaleStartExactly(s: State, unreadable: set<Partition>, limit: nat)
    requires Inv(s) && s == Halt(s)
    requires forall p, o | p in s.logs && 0 <= o < |s.logs[p]| :: s.logs[p][o] != Garbled
    ensures (exists p, evs :: Breaks(Assign(s, unreadable), p, evs, limit)) <==>
      limit >= 2 && !ResumesPast(s, unreadable)
  {
    hide FeedRow, UriOf, OfKey, Data, Inv, TableFor, ExactlyOnceIn, Assign, AdmissibleRun, Run, Resume, Next, Loose;
    var a := Assign(s, unreadable);
    if limit >= 2 && !ResumesPast(s, unreadable) {
      var p :| p in s.logs && Next(TableFor(s, p), p) <= |s.logs[p]| &&
        Data(p, s.logs[p], Resume(s, p, unreadable), Next(TableFor(s, p), p)) != [];
      var evs := StaleDoubles(s, unreadable, p, limit);
      assert Breaks(a, p, evs, limit);
    } else {
      forall p, evs
        ensures !Breaks(a, p, evs, limit)
      {
        if Breaks(a, p, evs, limit) {
          if limit >= 2 {
            AssignExact(s, unreadable);
            RunKeeps(a, evs, limit);
            InvExact(Run(a, evs, limit), p);
          } else {
            assert Durable(s) by { InvDurable(s); }
            LooseAssign(s, unreadable);
            LooseRun(a, evs, limit);
            LooseExact(Run(a, evs, limit), p);
          }
        }
      }
    }
  }

  lemma InvDurable(s: State)
    requires Inv(s)
    ensures Durable(s)
  {
    hide Durable, Pending;
  }

  // ---- From empty stores ----

  /** The row is written and its marker set, but the commit fails twice and the process ends. */
  lemma WrittenUncommitted(p: Partition, x: Payload, row: Row, limit: nat)
    requires FeedRow(p.topic, x) == Some(row)
    ensures UriOf(p.topic).Some?
    ensures var s0 := State(map[p := [x]], map[], map[], false, map[], map[], map[], map[], [], 0);
      var failing := Plan([], Failed);
      var s := Run(s0, [Rebalance({}), Deliver(p, true, failing, failing)], limit);
      && Initial(s0) && s == Halt(s) && s.logs == s0.logs && s.committed == map[]
      && TableFor(s, p) == Table([Entry(p, 0, row)], map[p := 0])
  {
    hide FeedRow, UriOf, Run, FlushTables, Flush, Take, AppendTo, Put, Halt;
    FeedTopic(p.topic, x);
    GarbledCarriesNothing(p.topic);
    var s0 := State(map[p := [x]], map[], map[], false, map[], map[], map[], map[], [], 0);
    var failing, uri, e := Plan([], Failed), UriOf(p.topic).value, Entry(p, 0, row);
    var ev := Deliver(p, true, failing, failing);
    var first := Step(s0, Rebalance({}), limit);
    ResumesAtStart(s0, p);
    assert first == s0.(running := true, position := map[p := 0]);
    var moved := Advance(first, p);
    OneRow(moved, uri, e);
    var taken := Take(moved, uri, e);
    FlushRow(taken, uri, e, failing);
    assert AppendTo(EMPTY_TABLE, [e], map[p := 0], Done) == (Table([e], map[p := 0]), true) by { FreshRow(e); }
    var wrote := Flush(taken, failing).0;
    FlushRow(wrote, uri, e, failing);
    OldRefused(Table([e], map[p := 0]), e, Done);
    PutTwice(uri, Table([e], map[p := 0]));
    assert Halt(taken.(tables := map[uri := Table([e], map[p := 0])])) == Step(first, ev, limit);
    HaltedTwice(taken.(tables := map[uri := Table([e], map[p := 0])]));
    TwoSteps(s0, Rebalance({}), ev, limit);
    HaltedTwice(s0);
    assert s0 == Halt(s0) by { NothingRuns(s0); }
  }

  lemma NothingRuns(s: State)
    requires !s.running && s.position == map[] && s.stored == map[] && s.batch == map[] && s.offsets == map[]
    requires s.order == [] && s.count == 0
    ensures s == Halt(s)
  {
  }

  lemma FreshRow(e: Entry)
    ensures AppendTo(EMPTY_TABLE, [e], map[e.source := e.offset], Done) ==
      (Table([e], map[e.source := e.offset]), true)
  {
    assert [] + [e] == [e] && map[] + map[e.source := e.offset] == map[e.source := e.offset];
  }

  lemma PutTwice(uri: string, t: Table)
    requires t != EMPTY_TABLE
    ensures Put(map[], uri, t) == map[uri := t] && Put(map[uri := t], uri, t) == map[uri := t]
  {
  }

  lemma HaltedTwice(s: State)
    ensures Halt(Halt(s)) == Halt(s) && Halt(s).tables == s.tables && Halt(s).logs == s.logs
    ensures Halt(s).committed == s.committed
  {
  }

  lemma TwoSteps(s: State, a: Event, b: Event, limit: nat)
    ensures Run(s, [a, b], limit) == Step(Step(s, a, limit), b, limit)
  {
    hide Step;
    var t := Step(Step(s, a, limit), b, limit);
    assert [a, b][1..] == [b] && [b][1..] == [];
    assert Run(t, [b][1..], limit) == t;
    assert Run(Step(s, a, limit), [b], limit) == t;
  }

  /** From empty stores: the process dies uncommitted, restarts unable to read the marker, and doubles a row. */
  lemma UnreadableDoubles(p: Partition, x: Payload, row: Row, limit: nat) returns (evs: seq<Event>)
    requires FeedRow(p.topic, x) == Some(row) && limit >= 2
    ensures var s0 := State(map[p := [x]], map[], map[], false, map[], map[], map[], map[], [], 0);
      var s := Run(s0, [Rebalance({}), Deliver(p, true, Plan([], Failed), Plan([], Failed))], limit);
      Initial(s0) && Inv(s) && Breaks(Assign(s, {p}), p, evs, limit)
  {
    hide FeedRow, UriOf, Run, Data, Step, Inv, Assign, Breaks;
    var failing := Plan([], Failed);
    var s0 := State(map[p := [x]], map[], map[], false, map[], map[], map[], map[], [], 0);
    var first := [Rebalance({}), Deliver(p, true, failing, failing)];
    WrittenUncommitted(p, x, row, limit);
    GarbledCarriesNothing(p.topic);
    StartsExact(s0);
    assert AdmissibleRun(s0, first, limit) by { FirstAdmissible(s0, p, failing, limit); }
    RunKeeps(s0, first, limit);
    var s := Run(s0, first, limit);
    DataExact(p, [x], 0, 1);
    assert [x][0] == x && Entry(p, 0, row) in Data(p, [x], 0, 1);
    assert Resume(s, p, {p}) == 0;
    evs := StaleDoubles(s, {p}, p, limit);
  }

  lemma FirstAdmissible(s: State, p: Partition, plan: Plan, limit: nat)
    requires Inv(s) && s.batch == map[]
    ensures AdmissibleRun(s, [Rebalance({}), Deliver(p, true, plan, plan)], limit)
  {
    hide Inv, Step, ResumesPast;
    ReadableAssign(s);
    var evs := [Rebalance({}), Deliver(p, true, plan, plan)];
    assert evs[1..][1..] == [] && evs[1..][0] == evs[1];
    var t := Step(s, evs[0], limit);
    assert AdmissibleRun(Step(t, evs[1], limit), evs[1..][1..], limit);
    assert AdmissibleRun(t, evs[1..], limit);
  }
}
