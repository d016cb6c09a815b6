/** What goes wrong outside the covered steps: rows doubled or lost, and exactly when. */
module SinkFaults {
  import opened Wrappers
  import opened Sequences
  import opened Transform
  import opened SinkModel
  import opened SinkSafety
  import opened SinkProgress

  const CALM := Plan([], Done)

  // ---- A record delivered again ----

  /** The first data record of a range that has one. */
  lemma {:induction false} FirstData(p: Partition, log: seq<Payload>, lo: nat, hi: nat) returns (o: nat)
    requires hi <= |log| && Data(p, log, lo, hi) != []
    ensures lo <= o < hi && FeedRow(p.topic, log[o]).Some? && Data(p, log, lo, o) == []
    ensures forall x | lo <= x < o :: FeedRow(p.topic, log[x]) == None
    decreases hi
  {
    hide FeedRow;
    OneRecord(p, log, hi - 1);
    if Data(p, log, lo, hi - 1) != [] {
      o := FirstData(p, log, lo, hi - 1);
    } else {
      o := hi - 1;
      DataExact(p, log, lo, o);
    }
  }

  /** `t` is `s` with the position of `p` at `o`. */
  ghost predicate MovedTo(s: State, t: State, p: Partition, o: nat) {
    && t == s.(position := s.position[p := o], stored := t.stored)
    && t.stored.Keys <= s.stored.Keys + {p}
  }

  /** Records without data only move the position. */
  lemma {:induction false} SkipTo(s: State, p: Partition, o: nat, limit: nat) returns (polls: seq<Event>)
    requires s.running && p in s.position && p in s.logs && s.position[p] <= o <= |s.logs[p]|
    requires forall x | s.position[p] <= x < o :: FeedRow(p.topic, s.logs[p][x]) == None && s.logs[p][x] != Garbled
    ensures Undisturbed(s, polls, limit) && MovedTo(s, Run(s, polls, limit), p, o)
    decreases o - s.position[p]
  {
    hide FeedRow, UriOf;
    polls := [];
    if s.position[p] == o {
      assert s.position[p := o] == s.position;
    } else {
      var ev := Deliver(p, false, CALM, CALM);
      var next := Step(s, ev, limit);
      assert next == Advance(s, p);
      var rest := SkipTo(next, p, o, limit);
      polls := [ev] + rest;
      assert polls[0] == ev && polls[1..] == rest;
      assert next.position[p := o] == s.position[p := o];
    }
  }

  /** Every pending table's batch is new to it. */
  ghost predicate AllFresh(s: State) {
    && Distinct(s.order)
    && (forall uri :: uri in s.order <==> uri in s.batch)
    && forall uri | uri in s.batch :: Fresh(TableAt(s.tables, uri), RowsAt(s.batch, uri), MarksAt(s.offsets, uri))
  }

  lemma CalmWrites(s: State, uri: string)
    requires AllFresh(s) && uri in s.batch
    ensures var t := FlushOrStop(s, CALM, CALM);
      t.logs == s.logs &&
      TableAt(t.tables, uri) == Appended(TableAt(s.tables, uri), RowsAt(s.batch, uri), MarksAt(s.offsets, uri))
  {
    hide FlushTables, Fresh, Appended, Shutdown;
    CalmTables(s.tables, s.batch, s.offsets, s.order, []);
    FlushTablesOnce(s.tables, s.tables, s.batch, s.offsets, s.order, []);
  }

  lemma GrownFresh(t: Table, rows: seq<Entry>, marks: Marks, e: Entry, more: Marks)
    requires (rows == [] && marks == map[]) || Fresh(t, rows, marks)
    requires e.source in marks || e.offset >= Next(t, e.source)
    requires more == if e.source in marks && e.offset <= marks[e.source] then marks else marks[e.source := e.offset]
    ensures Fresh(t, rows + [e], more)
  {
    assert e.source in more;
  }

  lemma TakeTouches(s: State, uri: string, e: Entry)
    ensures var t := Take(s, uri, e);
      && t.tables == s.tables && t.logs == s.logs && uri in t.batch
      && t.order == (if uri in s.batch then s.order else s.order + [uri])
      && RowsAt(t.batch, uri) == RowsAt(s.batch, uri) + [e]
      && forall u | u != uri ::
           && (u in t.batch <==> u in s.batch)
           && RowsAt(t.batch, u) == RowsAt(s.batch, u) && MarksAt(t.offsets, u) == MarksAt(s.offsets, u)
  {
  }

  lemma TakenFresh(s: State, uri: string, e: Entry)
    requires AllFresh(s)
    requires uri !in s.batch ==> MarksAt(s.offsets, uri) == map[]
    requires e.source in MarksAt(s.offsets, uri) || e.offset >= Next(TableAt(s.tables, uri), e.source)
    ensures AllFresh(Take(s, uri, e))
  {
    hide Fresh, Distinct, Next, TableAt;
    TakeTouches(s, uri, e);
    GrownFresh(TableAt(s.tables, uri), RowsAt(s.batch, uri), MarksAt(s.offsets, uri), e,
               MarksAt(Take(s, uri, e).offsets, uri));
    hide Take, RowsAt, MarksAt;
    if uri !in s.batch {
      OrderExtends(s.order, uri);
    }
  }

  /** The next data record of `p` reaches its table, on top of what is there and what is pending. */
  lemma Redeliver(s: State, p: Partition, o: nat, limit: nat) returns (polls: seq<Event>, marks: Marks)
    requires s.running && p in s.position && p in s.logs && s.position[p] <= o < |s.logs[p]| && AllFresh(s)
    requires forall x | s.position[p] <= x < o :: FeedRow(p.topic, s.logs[p][x]) == None && s.logs[p][x] != Garbled
    requires FeedRow(p.topic, s.logs[p][o]).Some?
    requires RowsFor(s, p) == [] ==> MarksFor(s, p) == map[]
    requires p in MarksFor(s, p) || o >= Next(TableFor(s, p), p)
    ensures Undisturbed(s, polls, limit)
    ensures var t := Run(s, polls, limit); var e := Entry(p, o, FeedRow(p.topic, s.logs[p][o]).value);
      t.logs == s.logs && TableFor(t, p) == Appended(TableFor(s, p), RowsFor(s, p) + [e], marks)
  {
    hide FeedRow, UriOf, AllFresh, Appended, FlushOrStop, Calm;
    FeedTopic(p.topic, s.logs[p][o]);
    GarbledCarriesNothing(p.topic);
    var uri, e := UriOf(p.topic).value, Entry(p, o, FeedRow(p.topic, s.logs[p][o]).value);
    var skips := SkipTo(s, p, o, limit);
    var ready := Run(s, skips, limit);
    var moved := Advance(ready, p);
    var ev := Deliver(p, true, CALM, CALM);
    FreshElsewhere(s, moved, uri);
    TakenFresh(moved, uri, e);
    var taken := Take(moved, uri, e);
    CalmWrites(taken, uri);
    marks := MarksAt(taken.offsets, uri);
    polls := skips + [ev];
    RunSnoc(s, skips, ev, limit);
    CalmEmpty();
    UndisturbedSnoc(s, skips, ev, limit);
  }

  lemma CalmEmpty()
    ensures Calm(CALM)
  {
  }

  lemma FreshElsewhere(s: State, t: State, uri: string)
    requires AllFresh(s)
    requires t.tables == s.tables && t.batch == s.batch && t.offsets == s.offsets && t.order == s.order
    ensures AllFresh(t) && (uri in s.batch ==> RowsAt(s.batch, uri) != [])
  {
  }

  lemma {:induction false} UndisturbedSnoc(s: State, polls: seq<Event>, ev: Event, limit: nat)
    requires Undisturbed(s, polls, limit) && CalmPoll(Run(s, polls, limit), ev)
    ensures Undisturbed(s, polls + [ev], limit)
    decreases |polls|
  {
    hide Step, CalmPoll;
    if polls == [] {
      assert polls + [ev] == [ev] && [ev][1..] == [];
      assert Undisturbed(Step(s, ev, limit), [], limit);
    } else {
      assert (polls + [ev])[1..] == polls[1..] + [ev];
      UndisturbedSnoc(Step(s, polls[0], limit), polls[1..], ev, limit);
    }
  }

  /** A row on top of a table that already has it is not exactly once. */
  lemma Twice(p: Partition, log: seq<Payload>, t: Table, rows: seq<Entry>, e: Entry, marks: Marks)
    requires e.source == p && e in OfKey(t.rows + rows, BySource, p)
    ensures !ExactlyOnceIn(p, log, Appended(t, rows + [e], marks))
  {
    hide FeedRow;
    var before := t.rows + rows;
    assert t.rows + (rows + [e]) == before + [e];
    OfKeyConcat(before, [e], BySource, p);
    assert OfKey([e][..0], BySource, p) == [];
    var own := OfKey(before, BySource, p);
    var i :| 0 <= i < |own| && own[i] == e;
    assert (own + [e])[i] == e && (own + [e])[|own|] == e;
  }

  // ---- Assignment while rows are pending ----

  /** Where a partition resumes, its next data record is pending or already in Delta. */
  lemma ResumesAtKnown(s: State, p: Partition, unreadable: set<Partition>) returns (o: nat)
    requires Inv(s) && p in s.position && OfKey(RowsFor(s, p), BySource, p) != []
    ensures p in s.logs && Resume(s, p, unreadable) <= o < s.position[p] <= |s.logs[p]|
    ensures FeedRow(p.topic, s.logs[p][o]).Some?
    ensures forall x | Resume(s, p, unreadable) <= x < o :: FeedRow(p.topic, s.logs[p][x]) == None
    ensures Entry(p, o, FeedRow(p.topic, s.logs[p][o]).value) in OfKey(TableFor(s, p).rows + RowsFor(s, p), BySource, p)
  {
    hide FeedRow, UriOf, OfKey, Data, Resume, Owned, CommittedSafe, Shape;
    var log, t, rows := s.logs[p], TableFor(s, p), RowsFor(s, p);
    var n, at, r := Next(t, p), s.position[p], Resume(s, p, unreadable);
    assert Waits(p, log, t, rows, MarksFor(s, p), at) && Holds(p, log, t);
    ResumeCovered(s, p, unreadable);
    if at <= n {
      EmptyRange(p, log, n, at);
    }
    if r >= n {
      if r > at {
        NoDataInside(p, log, n, r, n, at);
      }
      DataSplit(p, log, n, r, at);
    } else {
      DataSplit(p, log, r, n, at);
    }
    o := FirstData(p, log, r, at);
    OfKeyConcat(t.rows, rows, BySource, p);
    DataExact(p, log, 0, n);
    DataExact(p, log, n, at);
  }

  lemma PendingFresh(s: State, unreadable: set<Partition>, p: Partition)
    requires Inv(s) && p in s.position && OfKey(RowsFor(s, p), BySource, p) != []
    ensures var a := Assign(s, unreadable);
      AllFresh(a) && TableFor(a, p) == TableFor(s, p) && RowsFor(a, p) == RowsFor(s, p) && p in MarksFor(a, p)
  {
    hide FeedRow, UriOf, Data, OfKey, Resume, Durable, Fresh, AllWait, Shape, From;
    BatchFresh(s);
    assert AllFresh(s) by { BatchListed(s); }
    FreshElsewhere(s, Assign(s, unreadable), "");
    PendingMarked(s, p);
  }

  lemma BatchListed(s: State)
    requires Shape(s)
    ensures Distinct(s.order) && forall uri :: uri in s.order <==> uri in s.batch
  {
  }

  lemma PendingMarked(s: State, p: Partition)
    requires AllWait(s) && p in s.position && OfKey(RowsFor(s, p), BySource, p) != []
    ensures p in MarksFor(s, p)
  {
    hide FeedRow, UriOf, Data, OfKey, TableFor;
    assert p in s.logs && Waits(p, s.logs[p], TableFor(s, p), RowsFor(s, p), MarksFor(s, p), s.position[p]);
  }

  /** An assignment with rows of `p` pending has a continuation that doubles one, unless a fatal record stops it. */
  lemma PendingAssignDoubles(s: State, unreadable: set<Partition>, p: Partition, limit: nat) returns (polls: seq<Event>)
    requires Inv(s) && p in s.position && OfKey(RowsFor(s, p), BySource, p) != []
    requires p in s.logs && s.position[p] <= |s.logs[p]|
    requires forall o | Resume(s, p, unreadable) <= o < s.position[p] :: s.logs[p][o] != Garbled
    ensures Undisturbed(Assign(s, unreadable), polls, limit)
    ensures var t := Run(Assign(s, unreadable), polls, limit);
      p in t.logs && !ExactlyOnceIn(p, t.logs[p], TableFor(t, p))
  {
    hide FeedRow, UriOf, Data, OfKey, Resume, Inv, AllFresh, TableFor, RowsFor, MarksFor, ExactlyOnceIn;
    var o := ResumesAtKnown(s, p, unreadable);
    var a := Assign(s, unreadable);
    PendingFresh(s, unreadable, p);
    var marks;
    assert RowsFor(a, p) != [] by { OfNothing(p); }
    polls, marks := Redeliver(a, p, o, limit);
    Twice(p, s.logs[p], TableFor(s, p), RowsFor(s, p), Entry(p, o, FeedRow(p.topic, s.logs[p][o]).value), marks);
  }

  /** No record between where a partition would resume and its position is one the process dies on. */
  ghost predicate PassedReadable(s: State) {
    forall p, o | p in s.position && p in s.logs && Resume(s, p, {}) <= o < s.position[p] && o < |s.logs[p]| ::
      s.logs[p][o] != Garbled
  }

  /** From `s`, the polls `evs` double, lose or reorder a row of `p` in Delta. */
  ghost predicate Breaks(s: State, p: Partition, evs: seq<Event>, limit: nat) {
    && AdmissibleRun(s, evs, limit)
    && var t := Run(s, evs, limit); p in t.logs && !ExactlyOnceIn(p, t.logs[p], TableFor(t, p))
  }

  /** With readable markers, an assignment can break exactly-once in Delta exactly when rows are pending. */
  lemma ReadableAssignExactly(s: State, limit: nat)
    requires Inv(s) && PassedReadable(s)
    ensures (exists p, evs :: Breaks(Assign(s, {}), p, evs, limit)) <==> s.batch != map[]
  {
    hide FeedRow, UriOf, Data, OfKey, Resume, Inv, TableFor, RowsFor, MarksFor;
    hide ExactlyOnceIn, Assign, AdmissibleRun, Run;
    if s.batch != map[] {
      var p := SomePending(s);
      InRange(s, p);
      var polls := PendingAssignDoubles(s, {}, p, limit);
      assert AdmissibleRun(Assign(s, {}), polls, limit) by {
        UndisturbedAdmissible(Assign(s, {}), polls, limit);
      }
      assert Breaks(Assign(s, {}), p, polls, limit);
    } else {
      ReadableAssign(s);
      AssignExact(s, {});
      forall p, evs
        ensures !Breaks(Assign(s, {}), p, evs, limit)
      {
        if Breaks(Assign(s, {}), p, evs, limit) {
          RunKeeps(Assign(s, {}), evs, limit);
          InvExact(Run(Assign(s, {}), evs, limit), p);
        }
      }
    }
  }

  lemma SomePending(s: State) returns (p: Partition)
    requires Inv(s) && s.batch != map[]
    ensures p in s.position && OfKey(RowsFor(s, p), BySource, p) != []
  {
    hide FeedRow, Data, OfKey, Durable, AllWait;
    var uri :| uri in s.batch;
    var e := s.batch[uri][0];
    OfKeyIn(s.batch[uri], BySource, e.source);
    assert e in s.batch[uri];
    p := e.source;
  }

  lemma {:induction false} UndisturbedAdmissible(s: State, polls: seq<Event>, limit: nat)
    requires Undisturbed(s, polls, limit)
    ensures AdmissibleRun(s, polls, limit)
    decreases |polls|
  {
    hide Step, CalmPoll;
    if polls != [] {
      CalmAdmissible(s, polls[0]);
      UndisturbedAdmissible(Step(s, polls[0], limit), polls[1..], limit);
    }
  }

  /** Two assignments and one record: the row is in Delta twice. */
  lemma RebalanceDoubles(p: Partition, x: Payload, row: Row, limit: nat)
    requires FeedRow(p.topic, x) == Some(row) && limit >= 2
    ensures var s0 := State(map[p := [x]], map[], map[], false, map[], map[], map[], map[], [], 0);
      var evs := [Rebalance({}), Deliver(p, false, CALM, CALM), Rebalance({}), Deliver(p, true, CALM, CALM)];
      Initial(s0) && TableFor(Run(s0, evs, limit), p).rows == [Entry(p, 0, row), Entry(p, 0, row)]
  {
    hide FeedRow, UriOf, FlushOrStop, Run, FlushTables, Flush, Shutdown, Take, TableAt;
    FeedTopic(p.topic, x);
    GarbledCarriesNothing(p.topic);
    var uri, e := UriOf(p.topic).value, Entry(p, 0, row);
    var s0 := State(map[p := [x]], map[], map[], false, map[], map[], map[], map[], [], 0);
    var first := s0.(running := true, position := map[p := 0]);
    ResumesAtStart(s0, p);
    assert Step(s0, Rebalance({}), limit) == first;
    var held := Step(first, Deliver(p, false, CALM, CALM), limit);
    FirstTake(Advance(first, p), uri, e);
    var again := Step(held, Rebalance({}), limit);
    ResumesAtStart(held, p);
    var taken := Take(Advance(again, p), uri, e);
    SecondTake(Advance(again, p), uri, e);
    FlushOne(taken, uri);
    var done := Step(again, Deliver(p, true, CALM, CALM), limit);
    FourSteps(s0, first, held, again, done, p, limit);
  }

  lemma FirstTake(s: State, uri: string, e: Entry)
    requires s.batch == map[] && s.offsets == map[] && s.order == []
    ensures var t := Take(s, uri, e);
      t == s.(batch := map[uri := [e]], offsets := map[uri := map[e.source := e.offset]], order := [uri],
              count := s.count + 1)
  {
    assert [] + [e] == [e] && [] + [uri] == [uri];
  }

  lemma SecondTake(s: State, uri: string, e: Entry)
    requires s.batch == map[uri := [e]] && s.offsets == map[uri := map[e.source := e.offset]] && s.order == [uri]
    ensures Take(s, uri, e) == s.(batch := map[uri := [e, e]], count := s.count + 1)
  {
    assert [e] + [e] == [e, e];
    assert s.offsets[uri := s.offsets[uri]] == s.offsets;
  }

  lemma ResumesAtStart(s: State, p: Partition)
    requires s.tables == map[] && s.committed == map[] && s.logs.Keys == {p}
    ensures Assign(s, {}).position == map[p := 0]
  {
    hide UriOf;
  }

  lemma FlushOne(s: State, uri: string)
    requires s.tables == map[] && s.order == [uri] && uri in s.batch && s.batch[uri] != []
    ensures TableAt(FlushOrStop(s, CALM, CALM).tables, uri).rows == s.batch[uri]
  {
    var (t, ok) := AppendTo(EMPTY_TABLE, RowsAt(s.batch, uri), MarksAt(s.offsets, uri), Done);
    assert ok && t.rows == s.batch[uri];
    assert FlushTables(Put(s.tables, uri, t), s.batch, s.offsets, [], []) == (Put(s.tables, uri, t), true);
    assert s.order[1..] == [];
    assert FlushTables(s.tables, s.batch, s.offsets, s.order, []) == (Put(s.tables, uri, t), true);
  }

  lemma FourSteps(s: State, a: State, b: State, c: State, d: State, p: Partition, limit: nat)
    requires a == Step(s, Rebalance({}), limit) && b == Step(a, Deliver(p, false, CALM, CALM), limit)
    requires c == Step(b, Rebalance({}), limit) && d == Step(c, Deliver(p, true, CALM, CALM), limit)
    ensures var evs := [Rebalance({}), Deliver(p, false, CALM, CALM), Rebalance({}), Deliver(p, true, CALM, CALM)];
      Run(s, evs, limit) == d
  {
    hide Step;
    var evs := [Rebalance({}), Deliver(p, false, CALM, CALM), Rebalance({}), Deliver(p, true, CALM, CALM)];
    assert Run(d, evs[1..][1..][1..][1..], limit) == d;
    assert Run(c, evs[1..][1..][1..], limit) == d;
    assert Run(b, evs[1..][1..], limit) == d;
  }

  // ---- A record that everything has passed ----

  /** How many entries come from the record of `p` at `o`. */
  function Copies(entries: seq<Entry>, p: Partition, o: nat): nat {
    if entries == [] then 0
    else
      var e := entries[|entries| - 1];
      Copies(entries[..|entries| - 1], p, o) + if e.source == p && e.offset == o then 1 else 0
  }

  ghost predicate NoEntry(entries: seq<Entry>, p: Partition, o: nat) {
    forall e | e in entries :: !(e.source == p && e.offset == o)
  }

  lemma {:induction false} CopiesConcat(a: seq<Entry>, b: seq<Entry>, p: Partition, o: nat)
    ensures Copies(a + b, p, o) == Copies(a, p, o) + Copies(b, p, o)
    decreases |b|
  {
    if b == [] {
      assert a + b == a;
    } else {
      CopiesConcat(a, b[..|b| - 1], p, o);
      assert (a + b)[..|a + b| - 1] == a + b[..|b| - 1];
    }
  }

  lemma {:induction false} NoCopies(entries: seq<Entry>, p: Partition, o: nat)
    ensures Copies(entries, p, o) == 0 <==> NoEntry(entries, p, o)
  {
    if entries != [] {
      NoCopies(entries[..|entries| - 1], p, o);
      assert entries == entries[..|entries| - 1] + [entries[|entries| - 1]];
    }
  }

  /** Delta has `n` copies of the record of `p` at `o`, none is pending, and every place to resume from is past it. */
  ghost predicate Passed(s: State, p: Partition, o: nat, n: nat) {
    && UriOf(p.topic).Some? && PassedIn(TableFor(s, p), p, o, n) && PassedPending(s, p, o)
    && p in s.logs && o < |s.logs[p]|
    && p in s.committed && s.committed[p] > o
    && (p in s.position ==> s.position[p] > o) && (p in s.stored ==> s.stored[p] > o)
  }

  ghost predicate PassedIn(t: Table, p: Partition, o: nat, n: nat) {
    Copies(t.rows, p, o) == n && (p in t.markers ==> t.markers[p] >= o)
  }

  ghost predicate PassedPending(s: State, p: Partition, o: nat) {
    && (forall uri | uri in s.batch :: NoEntry(s.batch[uri], p, o))
    && (forall uri | uri in s.offsets && p in s.offsets[uri] :: s.offsets[uri][p] >= o)
  }

  lemma PassedAppend(t: Table, s: State, uri: string, outcome: Outcome, p: Partition, o: nat, n: nat)
    requires PassedIn(t, p, o, n) && PassedPending(s, p, o)
    ensures PassedIn(AppendTo(t, RowsAt(s.batch, uri), MarksAt(s.offsets, uri), outcome).0, p, o, n)
  {
    hide AlreadyApplied;
    var rows := RowsAt(s.batch, uri);
    NoCopies(rows, p, o);
    CopiesConcat(t.rows, rows, p, o);
  }

  lemma {:induction false} PassedTables(tables: map<string, Table>, s: State, order: seq<string>,
                                        outcomes: seq<Outcome>, own: string, p: Partition, o: nat, n: nat)
    requires PassedIn(TableAt(tables, own), p, o, n) && PassedPending(s, p, o)
    ensures PassedIn(TableAt(FlushTables(tables, s.batch, s.offsets, order, outcomes).0, own), p, o, n)
    decreases |order|
  {
    hide AppendTo, PassedIn, PassedPending;
    if order != [] {
      var uri := order[0];
      var t := AppendTo(TableAt(tables, uri), RowsAt(s.batch, uri), MarksAt(s.offsets, uri), First(outcomes)).0;
      if uri == own {
        PassedAppend(TableAt(tables, uri), s, uri, First(outcomes), p, o, n);
      }
      PassedTables(Put(tables, uri, t), s, order[1..], Rest(outcomes), own, p, o, n);
    }
  }

  lemma PassedFlush(s: State, plan: Plan, p: Partition, o: nat, n: nat)
    requires Passed(s, p, o, n)
    ensures Passed(Flush(s, plan).0, p, o, n)
  {
    hide PassedIn, PassedPending, FlushTables, Passed, Flush, UriOf, TableAt;
    PassedParts(s, p, o, n);
    PassedTables(s.tables, s, s.order, plan.appends, UriOf(p.topic).value, p, o, n);
    var wrote := s.(tables := FlushTables(s.tables, s.batch, s.offsets, s.order, plan.appends).0);
    var told := wrote.(committed := wrote.committed + wrote.stored);
    var forgot := told.(batch := map[], offsets := map[], order := [], count := 0);
    PassedSame(s, wrote, p, o);
    PassedSame(s, told, p, o);
    NothingPassed(forgot, p, o);
    PassedWritten(s, wrote, p, o, n);
    PassedWritten(s, told, p, o, n);
    PassedWritten(s, forgot, p, o, n);
    assert Flush(s, plan).0 in {s, wrote, told, forgot} by { FlushCases(s, plan); }
  }

  lemma FlushCases(s: State, plan: Plan)
    ensures var wrote := s.(tables := FlushTables(s.tables, s.batch, s.offsets, s.order, plan.appends).0);
      var told := wrote.(committed := wrote.committed + wrote.stored);
      Flush(s, plan).0 in {s, wrote, told, told.(batch := map[], offsets := map[], order := [], count := 0)}
  {
    hide FlushTables;
  }

  lemma PassedParts(s: State, p: Partition, o: nat, n: nat)
    requires Passed(s, p, o, n)
    ensures UriOf(p.topic).Some? && PassedIn(TableFor(s, p), p, o, n) && PassedPending(s, p, o)
  {
    hide UriOf, PassedIn, PassedPending, TableFor;
  }

  lemma PassedWritten(s: State, t: State, p: Partition, o: nat, n: nat)
    requires Passed(s, p, o, n) && PassedIn(TableFor(t, p), p, o, n) && PassedPending(t, p, o)
    requires t.logs == s.logs && t.position == s.position && t.stored == s.stored
    requires t.committed == s.committed || t.committed == s.committed + s.stored
    ensures Passed(t, p, o, n)
  {
    hide PassedIn, PassedPending, TableFor, UriOf;
  }

  lemma NothingPassed(s: State, p: Partition, o: nat)
    requires s.batch == map[] && s.offsets == map[]
    ensures PassedPending(s, p, o)
  {
  }

  lemma PassedHalt(s: State, p: Partition, o: nat, n: nat)
    requires Passed(s, p, o, n)
    ensures Passed(Halt(s), p, o, n)
  {
    hide PassedIn, UriOf;
    SameTableFor(s, Halt(s), p);
  }

  lemma PassedShutdown(s: State, plan: Plan, last: Plan, p: Partition, o: nat, n: nat)
    requires Passed(s, p, o, n)
    ensures Passed(FlushOrStop(s, plan, last), p, o, n) && Passed(Shutdown(s, last), p, o, n)
  {
    hide Passed, Flush, Halt;
    PassedFlush(s, plan, p, o, n);
    PassedFlush(s, last, p, o, n);
    PassedFlush(Flush(s, plan).0, last, p, o, n);
    PassedHalt(Flush(s, last).0, p, o, n);
    PassedHalt(Flush(Flush(s, plan).0, last).0, p, o, n);
  }

  lemma PassedTake(s: State, p: Partition, o: nat, n: nat, uri: string, e: Entry)
    requires Passed(s, p, o, n) && (e.source == p ==> e.offset > o)
    ensures Passed(Take(s, uri, e), p, o, n)
  {
    hide PassedIn, UriOf, TableFor;
    SameTableFor(s, Take(s, uri, e), p);
  }

  lemma PassedAdvance(s: State, q: Partition, p: Partition, o: nat, n: nat)
    requires Passed(s, p, o, n) && HasRecord(s, q)
    ensures Passed(Advance(s, q), p, o, n)
  {
    hide PassedIn, UriOf, TableFor, PassedPending;
    SameTableFor(s, Advance(s, q), p);
    PassedSame(s, Advance(s, q), p, o);
  }

  lemma PassedDeliver(s: State, q: Partition, elapsed: bool, plan: Plan, last: Plan, limit: nat,
                      p: Partition, o: nat, n: nat)
    requires Passed(s, p, o, n) && HasRecord(s, q)
    ensures Passed(DeliverStep(s, q, elapsed, plan, last, limit), p, o, n)
  {
    hide Passed, FeedRow, UriOf, FlushOrStop, Shutdown, Take;
    var at, moved := s.position[q], Advance(s, q);
    PassedAdvance(s, q, p, o, n);
    if s.logs[q][at] == Garbled {
      PassedShutdown(moved, last, last, p, o, n);
    } else if FeedRow(q.topic, s.logs[q][at]).Some? {
      FeedTopic(q.topic, s.logs[q][at]);
      var uri, e := UriOf(q.topic).value, Entry(q, at, FeedRow(q.topic, s.logs[q][at]).value);
      assert q == p ==> at > o by { PassedPosition(s, p, o, n); }
      PassedTake(moved, p, o, n, uri, e);
      PassedShutdown(Take(moved, uri, e), plan, last, p, o, n);
    }
  }

  lemma PassedPosition(s: State, p: Partition, o: nat, n: nat)
    requires Passed(s, p, o, n)
    ensures p in s.position ==> s.position[p] > o
  {
    hide PassedIn, PassedPending, TableFor, UriOf;
  }

  lemma PassedSame(s: State, t: State, p: Partition, o: nat)
    requires PassedPending(s, p, o) && t.batch == s.batch && t.offsets == s.offsets
    ensures PassedPending(t, p, o)
  {
  }

  lemma PassedAssign(s: State, unreadable: set<Partition>, p: Partition, o: nat, n: nat)
    requires Passed(s, p, o, n)
    ensures Passed(Assign(s, unreadable), p, o, n)
  {
    hide UriOf, TableFor, PassedPending;
    SameTableFor(s, Assign(s, unreadable), p);
    PassedSame(s, Assign(s, unreadable), p, o);
    assert Resume(s, p, unreadable) > o;
  }

  lemma PassedProduce(s: State, q: Partition, x: Payload, limit: nat, p: Partition, o: nat, n: nat)
    requires Passed(s, p, o, n)
    ensures Passed(Step(s, Produce(q, x), limit), p, o, n)
  {
    hide UriOf, TableFor, PassedPending, PassedIn;
    var t := Step(s, Produce(q, x), limit);
    SameTableFor(s, t, p);
    PassedSame(s, t, p, o);
  }

  lemma PassedReset(s: State, q: Partition, offset: nat, limit: nat, p: Partition, o: nat, n: nat)
    requires Passed(s, p, o, n) && !RewindsTo(Reset(q, offset), p, o)
    ensures Passed(Step(s, Reset(q, offset), limit), p, o, n)
  {
    hide UriOf, TableFor, PassedPending, PassedIn, Step;
    var t := Step(s, Reset(q, offset), limit);
    ResetIs(s, q, offset, limit);
    SameTableFor(s, t, p);
    PassedSame(s, t, p, o);
  }

  predicate RewindsTo(ev: Event, p: Partition, o: nat) {
    ev.Reset? && ev.p == p && ev.offset <= o
  }

  lemma PassedStep(s: State, ev: Event, limit: nat, p: Partition, o: nat, n: nat)
    requires Passed(s, p, o, n) && !RewindsTo(ev, p, o)
    ensures Passed(Step(s, ev, limit), p, o, n)
  {
    hide Passed, FlushOrStop, Shutdown, DeliverStep, Assign, Halt;
    match ev
    case Quiet(elapsed, plan, last) => PassedShutdown(s, plan, last, p, o, n);
    case Notice =>
    case Fatal(last) => PassedShutdown(s, last, last, p, o, n);
    case Deliver(q, elapsed, plan, last) =>
      if HasRecord(s, q) {
        PassedDeliver(s, q, elapsed, plan, last, limit, p, o, n);
      }
    case Interrupt(last) => PassedShutdown(s, last, last, p, o, n);
    case Kill => PassedHalt(s, p, o, n);
    case Rebalance(unreadable) => PassedAssign(s, unreadable, p, o, n);
    case Produce(q, x) => PassedProduce(s, q, x, limit, p, o, n);
    case Reset(q, offset) => PassedReset(s, q, offset, limit, p, o, n);
  }

  /** The copies of a passed record in Delta stay as many as they are, whatever happens, until a reset rewinds to it. */
  lemma {:induction false} PassedForGood(s: State, evs: seq<Event>, limit: nat, p: Partition, o: nat, n: nat)
    requires Passed(s, p, o, n) && forall ev | ev in evs :: !RewindsTo(ev, p, o)
    ensures Passed(Run(s, evs, limit), p, o, n)
    decreases |evs|
  {
    hide Passed, Step;
    if evs != [] {
      assert evs[0] in evs;
      PassedStep(s, evs[0], limit, p, o, n);
      PassedForGood(Step(s, evs[0], limit), evs[1..], limit, p, o, n);
    }
  }

  /** The record of `p` at `o` is neither written nor pending, and every place to resume from is past it. */
  ghost predicate Missed(s: State, p: Partition, o: nat) {
    Passed(s, p, o, 0)
  }

  /** A missed record never reaches Delta, whatever happens, until an operator rewinds to it. */
  lemma MissedForGood(s: State, evs: seq<Event>, limit: nat, p: Partition, o: nat)
    requires Missed(s, p, o) && forall ev | ev in evs :: !RewindsTo(ev, p, o)
    ensures NoEntry(TableFor(Run(s, evs, limit), p).rows, p, o) && Missed(Run(s, evs, limit), p, o)
  {
    hide Run, PassedPending, UriOf, TableFor;
    PassedForGood(s, evs, limit, p, o, 0);
    NoCopies(TableFor(Run(s, evs, limit), p).rows, p, o);
  }

  lemma NothingAt(s: State, p: Partition, o: nat)
    requires p in s.logs && Holds(p, s.logs[p], TableFor(s, p)) && Next(TableFor(s, p), p) <= o
    ensures NoEntry(TableFor(s, p).rows, p, o)
  {
    hide FeedRow, UriOf, OfKey, Data, TableFor;
    DataExact(p, s.logs[p], 0, Next(TableFor(s, p), p));
    OfKeyIn(TableFor(s, p).rows, BySource, p);
  }

  /** With the process stopped, a reset loses a data record exactly when it passes it and there is no marker. */
  lemma ResetLosesExactly(s: State, p: Partition, offset: nat, o: nat)
    requires Inv(s) && s == Halt(s) && p in s.logs && offset <= |s.logs[p]|
    requires o < |s.logs[p]| && FeedRow(p.topic, s.logs[p][o]).Some?
    ensures Missed(Step(s, Reset(p, offset), 0), p, o) <==> o < offset && p !in TableFor(s, p).markers
  {
    hide FeedRow, UriOf, OfKey, Data, TableFor, Pending, Owned, CommittedSafe, PassedPending, Step;
    FeedTopic(p.topic, s.logs[p][o]);
    var t, after := TableFor(s, p), Step(s, Reset(p, offset), 0);
    ResetIs(s, p, offset, 0);
    SameTableFor(s, after, p);
    NothingPassed(after, p, o);
    assert Holds(p, s.logs[p], t);
    NoCopies(t.rows, p, o);
    if p !in t.markers {
      NothingAt(s, p, o);
    } else if t.markers[p] >= o {
      DataExact(p, s.logs[p], 0, Next(t, p));
      var e := Entry(p, o, FeedRow(p.topic, s.logs[p][o]).value);
      OfKeyIn(t.rows, BySource, p);
      assert !NoEntry(t.rows, p, o);
    }
  }
}
