/** What each turn of the loop writes and commits, table by table, read off the state before it and the outcomes. */
module SinkWrites {
  import opened Wrappers
  import opened Sequences
  import opened Transform
  import opened SinkModel
  import opened SinkSafety
  import opened SinkProgress
  import opened SinkInterrupts

  // ---- One flush, and one more after it failed ----

  /** A flush that may find its batch in some of the tables already. */
  lemma {:induction false} LandsOnce(base: map<string, Table>, tables: map<string, Table>,
      batch: map<string, seq<Entry>>, offsets: map<string, Marks>, order: seq<string>, outcomes: seq<Outcome>,
      own: string)
    requires Distinct(order)
    requires forall uri | uri in order ::
      && Fresh(TableAt(base, uri), RowsAt(batch, uri), MarksAt(offsets, uri))
      && Either(TableAt(base, uri), TableAt(tables, uri), RowsAt(batch, uri), MarksAt(offsets, uri))
    ensures TableAt(FlushTables(tables, batch, offsets, order, outcomes).0, own) ==
      if Lands(order, own, outcomes) then Appended(TableAt(base, own), RowsAt(batch, own), MarksAt(offsets, own))
      else TableAt(tables, own)
    decreases |order|
  {
    hide AlreadyApplied, Appended, Distinct;
    if order != [] {
      var uri := order[0];
      assert uri in order;
      var rows, marks := RowsAt(batch, uri), MarksAt(offsets, uri);
      AppendOnce(TableAt(base, uri), TableAt(tables, uri), rows, marks, First(outcomes));
      LandsInOne(TableAt(base, uri), TableAt(tables, uri), rows, marks, First(outcomes));
      var (t, ok) := AppendTo(TableAt(tables, uri), rows, marks, First(outcomes));
      var next := Put(tables, uri, t);
      assert forall u :: TableAt(next, u) == if u == uri then t else TableAt(tables, u);
      RestDistinct(order);
      if ok {
        LandsOnce(base, next, batch, offsets, order[1..], Rest(outcomes), own);
        if own == uri {
          NotInRest(order[1..], own, Rest(outcomes));
        }
      }
    }
  }

  lemma LandsInOne(base: Table, t: Table, rows: seq<Entry>, marks: Marks, o: Outcome)
    requires Fresh(base, rows, marks) && Either(base, t, rows, marks)
    ensures AppendTo(t, rows, marks, o).0 == if o != Failed then Appended(base, rows, marks) else t
    ensures AppendTo(t, rows, marks, o).1 <==> o == Done
  {
    AppendOnce(base, t, rows, marks, o);
  }

  lemma RestDistinct(order: seq<string>)
    requires Distinct(order) && order != []
    ensures Distinct(order[1..]) && order[0] !in order[1..] && forall uri | uri in order[1..] :: uri in order
  {
  }

  lemma {:induction false} NotInRest(order: seq<string>, uri: string, outcomes: seq<Outcome>)
    requires uri !in order
    ensures !Lands(order, uri, outcomes)
    decreases |order|
  {
    if order != [] {
      assert order[0] in order && uri !in order[1..];
      NotInRest(order[1..], uri, Rest(outcomes));
    }
  }

  lemma {:induction false} AllLand(order: seq<string>, uri: string, outcomes: seq<Outcome>)
    requires AllDone(|order|, outcomes)
    ensures Lands(order, uri, outcomes) <==> uri in order
    decreases |order|
  {
    if order != [] {
      AllLand(order[1..], uri, Rest(outcomes));
      assert uri in order <==> uri == order[0] || uri in order[1..];
    }
  }

  /** The flush after the batch, or after a turn of the loop that adds nothing, works for every table and for Kafka. */
  predicate Succeeds(s: State, plan: Plan) {
    s.batch == map[] || (AllDone(|s.order|, plan.appends) && plan.commit == Done)
  }

  /** A flush with these outcomes, and a last one if it fails, brings the batch of this table to Delta. */
  predicate Arrives(s: State, uri: string, plan: Plan, last: Plan) {
    Lands(s.order, uri, plan.appends) || (!Succeeds(s, plan) && Lands(s.order, uri, last.appends))
  }

  /** The same for the commit of the offsets. */
  predicate Tells(s: State, plan: Plan, last: Plan) {
    CommitsOffsets(s, plan) || (!Succeeds(s, plan) && CommitsOffsets(s, last))
  }

  /** The table as it is, or with all its pending rows and markers behind. */
  function WithPending(s: State, uri: string, arrives: bool): Table {
    var t := TableAt(s.tables, uri);
    if arrives then Table(t.rows + RowsAt(s.batch, uri), t.markers + MarksAt(s.offsets, uri)) else t
  }

  ghost predicate Ready(s: State) {
    && Distinct(s.order) && (forall uri :: uri in s.order <==> uri in s.batch)
    && (forall uri | uri in s.offsets :: uri in s.batch)
    && forall uri | uri in s.order ::
         Fresh(TableAt(s.tables, uri), RowsAt(s.batch, uri), MarksAt(s.offsets, uri))
  }

  lemma ReadyWhenExact(s: State)
    requires Inv(s)
    ensures Ready(s)
  {
    hide FeedRow, UriOf, Data, OfKey, Durable, AllWait, Fresh, Distinct, From;
    BatchFresh(s);
  }

  lemma FirstIn(order: seq<string>)
    ensures order == [] || order[0] in order
  {
  }

  lemma NothingOrdered(s: State)
    requires Ready(s) && s.batch == map[]
    ensures s.order == [] && s.offsets == map[]
  {
    hide Fresh;
    FirstIn(s.order);
  }

  /** `t` is `s` after an attempt to write its batch. */
  ghost predicate Attempted(s: State, t: State) {
    && t == s.(tables := t.tables, committed := t.committed)
    && forall uri | uri in s.order ::
         Either(TableAt(s.tables, uri), TableAt(t.tables, uri), RowsAt(s.batch, uri), MarksAt(s.offsets, uri))
  }

  lemma TablesExact(s: State, t: State, outcomes: seq<Outcome>)
    requires Ready(s) && Attempted(s, t)
    ensures var (tables, ok) := FlushTables(t.tables, s.batch, s.offsets, s.order, outcomes);
      && (ok <==> AllDone(|s.order|, outcomes))
      && forall uri :: TableAt(tables, uri) ==
           if Lands(s.order, uri, outcomes) then WithPending(s, uri, true) else TableAt(t.tables, uri)
  {
    hide FlushTables, Distinct, Fresh, Lands, AllDone, Either, TableAt, RowsAt, MarksAt;
    PendingNotEmpty(s);
    WritesAll(t.tables, s.batch, s.offsets, s.order, outcomes);
    forall uri
      ensures TableAt(FlushTables(t.tables, s.batch, s.offsets, s.order, outcomes).0, uri) ==
        if Lands(s.order, uri, outcomes) then WithPending(s, uri, true) else TableAt(t.tables, uri)
    {
      LandsOnce(s.tables, t.tables, s.batch, s.offsets, s.order, outcomes, uri);
    }
  }

  lemma EndedIs(s: State, tables: map<string, Table>, ok: bool, commit: Outcome)
    ensures var (t, done) := Ended(s, tables, ok, commit);
      && (done <==> ok && commit == Done)
      && t == (if done then s.(batch := map[], offsets := map[], order := [], count := 0) else s)
              .(tables := tables,
                committed := if ok && commit != Failed then s.committed + s.stored else s.committed)
  {
  }

  /** One flush from `t`, where an earlier attempt of the same batch may have written some tables. */
  lemma FlushExact(s: State, t: State, plan: Plan)
    requires Ready(s) && s.batch != map[] && Attempted(s, t)
    ensures var (after, ok) := Flush(t, plan);
      && (ok <==> Succeeds(s, plan))
      && after == (if ok then t.(batch := map[], offsets := map[], order := [], count := 0) else t)
                  .(tables := after.tables, committed := after.committed)
      && after.committed == (if CommitsOffsets(s, plan) then t.committed + s.stored else t.committed)
      && forall uri :: TableAt(after.tables, uri) ==
           if Lands(s.order, uri, plan.appends) then WithPending(s, uri, true) else TableAt(t.tables, uri)
  {
    hide FlushTables, Ready, Lands, AllDone, Either, Ended, TableAt, WithPending;
    FlushIs(t, plan);
    var (tables, ok) := FlushTables(t.tables, s.batch, s.offsets, s.order, plan.appends);
    TablesExact(s, t, plan.appends);
    EndedIs(t, tables, ok, plan.commit);
  }

  lemma PendingNotEmpty(s: State)
    requires Ready(s)
    ensures forall uri | uri in s.order :: RowsAt(s.batch, uri) != []
  {
    hide Distinct;
  }

  /** A last flush, whatever happened in the attempt before it, and the end of the process. */
  lemma ShutdownExact(s: State, t: State, last: Plan)
    requires Ready(s) && Attempted(s, t)
    ensures var after := Shutdown(t, last);
      && after == Halt(after) && after.logs == s.logs
      && after.committed == (if CommitsOffsets(s, last) then t.committed + s.stored else t.committed)
      && forall uri :: TableAt(after.tables, uri) ==
           if Lands(s.order, uri, last.appends) then WithPending(s, uri, true) else TableAt(t.tables, uri)
  {
    hide Flush, Ready, AllDone, TableAt, WithPending, Attempted;
    if s.batch == map[] {
      NothingOrdered(s);
      assert t.batch == map[] by { assert Attempted(s, t); AttemptIs(s, t); }
      FlushNothing(t, last);
    } else {
      hide Lands;
      FlushExact(s, t, last);
    }
    AttemptIs(s, t);
  }

  lemma AttemptIs(s: State, t: State)
    requires Attempted(s, t)
    ensures t.batch == s.batch && t.logs == s.logs && t.order == s.order
  {
    hide Either;
  }

  /** Writing some of the tables whole is an attempt. */
  lemma AttemptedSome(s: State, t: State, plan: Plan)
    requires t == s.(tables := t.tables, committed := t.committed)
    requires forall uri ::
      TableAt(t.tables, uri) ==
      if Lands(s.order, uri, plan.appends) then WithPending(s, uri, true) else TableAt(s.tables, uri)
    ensures Attempted(s, t)
  {
    hide Lands, TableAt, RowsAt, MarksAt;
  }

  /** A flush inside the loop: it works and the loop goes on, or it fails, one more follows, and the process is gone. */
  lemma FlushOrStopExact(s: State, plan: Plan, last: Plan)
    requires Ready(s)
    ensures var t := FlushOrStop(s, plan, last);
      && (forall uri :: TableAt(t.tables, uri) == WithPending(s, uri, Arrives(s, uri, plan, last)))
      && t.committed == (if Tells(s, plan, last) then s.committed + s.stored else s.committed)
      && t.logs == s.logs && t.batch == map[] && t.offsets == map[]
      && if Succeeds(s, plan) then t.running == s.running && t.position == s.position && t.stored == s.stored
         else t == Halt(t)
  {
    hide Flush, Shutdown, Ready, AllDone, TableAt, RowsAt, MarksAt, Attempted;
    if s.batch == map[] {
      FlushNothing(s, plan);
      NothingOrdered(s);
    } else {
      hide Lands;
      AttemptedNone(s);
      FlushExact(s, s, plan);
      var next := Flush(s, plan).0;
      if !Flush(s, plan).1 {
        AttemptedSome(s, next, plan);
        ShutdownExact(s, next, last);
        assert s.committed + s.stored + s.stored == s.committed + s.stored;
      }
    }
  }

  lemma AttemptedNone(s: State)
    ensures Attempted(s, s)
  {
  }

  // ---- Turns of the loop ----

  /** Polls that end the process: an interrupt, a Kafka error, a body the sink cannot read. */
  predicate Leaves(s: State, ev: Event) {
    || ev.Interrupt? || ev.Fatal?
    || (ev.Deliver? && HasRecord(s, ev.p) && s.logs[ev.p][s.position[ev.p]] == Garbled)
  }

  /** The offsets that a commit after this poll stores; an unreadable record is behind them already. */
  function StoredBy(s: State, ev: Event): Marks {
    if ev.Deliver? && ev.p in s.position then s.stored[ev.p := s.position[ev.p] + 1] else s.stored
  }

  /** On the way out each table that the outcomes let through gets its pending rows, and nothing else changes. */
  lemma ExitExact(s: State, ev: Event, limit: nat)
    requires Inv(s) && s.running && Leaves(s, ev)
    ensures var t := Step(s, ev, limit);
      && t == Halt(t) && t.logs == s.logs
      && (forall uri :: TableAt(t.tables, uri) == WithPending(s, uri, Lands(s.order, uri, ev.last.appends)))
      && t.committed == if CommitsOffsets(s, ev.last) then s.committed + StoredBy(s, ev) else s.committed
  {
    hide Inv, Ready, Lands, AllDone, TableAt, RowsAt, MarksAt, Shutdown, FeedRow, UriOf, Attempted;
    ReadyWhenExact(s);
    var left := s.(stored := StoredBy(s, ev));
    if ev.Deliver? {
      left := Advance(s, ev.p);
    }
    assert Ready(left) by { ReadySame(s, left); }
    AttemptedNone(left);
    ShutdownExact(left, left, ev.last);
  }

  lemma ReadySame(s: State, t: State)
    requires Ready(s) && t.tables == s.tables && t.batch == s.batch && t.offsets == s.offsets && t.order == s.order
    ensures Ready(t)
  {
    hide Distinct, Fresh;
  }

  /** With stores that work, an exit of the loop brings everything pending to Delta and tells Kafka. */
  lemma ExitWritesAll(s: State, ev: Event, limit: nat)
    requires Inv(s) && s.running && Leaves(s, ev)
    requires (forall o | o in ev.last.appends :: o == Done) && ev.last.commit != Failed
    ensures var t := Step(s, ev, limit);
      && !t.running && t.batch == map[]
      && (forall uri :: TableAt(t.tables, uri).rows == TableAt(s.tables, uri).rows + RowsAt(s.batch, uri))
      && (forall uri :: TableAt(t.tables, uri).markers == TableAt(s.tables, uri).markers + MarksAt(s.offsets, uri))
      && (s.batch != map[] ==> t.committed == s.committed + StoredBy(s, ev))
  {
    hide Inv, Lands, Step, FeedRow, UriOf, Distinct, Fresh;
    ReadyWhenExact(s);
    ExitExact(s, ev, limit);
    AllDoneWhen(|s.order|, ev.last.appends);
    forall uri
      ensures TableAt(Step(s, ev, limit).tables, uri) == WithPending(s, uri, true)
    {
      AllLand(s.order, uri, ev.last.appends);
      var t := TableAt(s.tables, uri);
      assert t.rows + [] == t.rows && t.markers + map[] == t.markers;
    }
  }

  lemma {:induction false} AllDoneWhen(n: nat, outcomes: seq<Outcome>)
    requires forall o | o in outcomes :: o == Done
    ensures AllDone(n, outcomes)
    decreases n
  {
    if n > 0 {
      assert outcomes != [] ==> outcomes[0] in outcomes;
      assert forall o | o in Rest(outcomes) :: o in outcomes;
      AllDoneWhen(n - 1, Rest(outcomes));
    }
  }

  /** A poll without a message flushes exactly when the time is up. */
  lemma QuietExact(s: State, elapsed: bool, plan: Plan, last: Plan, limit: nat)
    requires Inv(s) && s.running
    ensures !elapsed ==> Step(s, Quiet(elapsed, plan, last), limit) == s
    ensures elapsed ==> var t := Step(s, Quiet(elapsed, plan, last), limit);
      && (forall uri :: TableAt(t.tables, uri) == WithPending(s, uri, Arrives(s, uri, plan, last)))
      && t.committed == (if Tells(s, plan, last) then s.committed + s.stored else s.committed)
      && t.logs == s.logs && t.batch == map[] && t.offsets == map[]
      && if Succeeds(s, plan) then t.running && t.position == s.position && t.stored == s.stored else t == Halt(t)
  {
    hide Inv, Ready, Arrives, Tells, Succeeds, WithPending, FlushOrStop;
    ReadyWhenExact(s);
    FlushOrStopExact(s, plan, last);
  }

  /** The rows of all tables in the batch. */
  function Waiting(batch: map<string, seq<Entry>>, order: seq<string>): nat {
    if order == [] then 0
    else Waiting(batch, order[..|order| - 1]) + |RowsAt(batch, order[|order| - 1])|
  }

  /** One more row for one table is one more row in all. */
  lemma {:induction false} WaitingGrows(a: map<string, seq<Entry>>, b: map<string, seq<Entry>>, order: seq<string>,
                                        uri: string, e: Entry)
    requires Distinct(order)
    requires forall u :: RowsAt(b, u) == RowsAt(a, u) + if u == uri then [e] else []
    ensures Waiting(b, order) == Waiting(a, order) + if uri in order then 1 else 0
    decreases |order|
  {
    hide RowsAt;
    if order != [] {
      var init, last := order[..|order| - 1], order[|order| - 1];
      assert order == init + [last];
      assert Distinct(init) && last !in init;
      WaitingGrows(a, b, init, uri, e);
    }
  }

  /** `s` with the next row of `p` in the batch of its table, and the marker and offset of `p` raised. */
  ghost predicate Batched(s: State, p: Partition, uri: string, e: Entry, t: State) {
    && (forall u :: RowsAt(t.batch, u) == RowsAt(s.batch, u) + if u == uri then [e] else [])
    && (forall u ::
          MarksAt(t.offsets, u) == if u == uri then MarksAt(s.offsets, u)[p := e.offset] else MarksAt(s.offsets, u))
    && t.order == HalfOrder(s, uri)
    && t.position == s.position[p := e.offset + 1] && t.stored == s.stored[p := e.offset + 1]
    && t.tables == s.tables && t.committed == s.committed && t.logs == s.logs && t.running == s.running
  }

  /**
   * A delivered data record joins the batch; when the batch is then full or old it is flushed, and otherwise no store
   * changes.
   */
  lemma DeliverExact(s: State, p: Partition, uri: string, e: Entry, elapsed: bool, plan: Plan, last: Plan, limit: nat)
      returns (b: State)
    requires Inv(s) && s.running && NextIs(s, p, uri, e) && s.count == Waiting(s.batch, s.order)
    ensures Batched(s, p, uri, e, b) && Waiting(b.batch, b.order) == Waiting(s.batch, s.order) + 1
    ensures var t := Step(s, Deliver(p, elapsed, plan, last), limit);
      if Waiting(b.batch, b.order) < limit && !elapsed then t == b
      else
        && (forall u :: TableAt(t.tables, u) == WithPending(b, u, Arrives(b, u, plan, last)))
        && t.committed == (if Tells(b, plan, last) then b.committed + b.stored else b.committed)
        && t.logs == b.logs && t.batch == map[] && t.offsets == map[]
        && if Succeeds(b, plan) then t.running && t.position == b.position && t.stored == b.stored else t == Halt(t)
  {
    hide Inv, FeedRow, UriOf, Ready, Arrives, Tells, Succeeds, WithPending, FlushOrStop, Batched, Take, Advance;
    b := Take(Advance(s, p), uri, e);
    Taken(s, p, uri, e);
    GarbledCarriesNothing(p.topic);
    ReadyWhenExact(b);
    FlushOrStopExact(b, plan, last);
  }

  lemma Taken(s: State, p: Partition, uri: string, e: Entry)
    requires Inv(s) && s.running && NextIs(s, p, uri, e)
    ensures var b := Take(Advance(s, p), uri, e);
      && Batched(s, p, uri, e, b) && b.running && b.count == s.count + 1 && Inv(b)
      && Waiting(b.batch, b.order) == Waiting(s.batch, s.order) + 1
  {
    hide FeedRow, UriOf, Inv, Ready;
    NextParts(s, p, uri, e);
    var b := Take(Advance(s, p), uri, e);
    TakeStepKeeps(s, p, e.row, uri);
    BelowMark(s, p);
    TakenBatch(s, p, uri, e);
    ReadyWhenExact(s);
    ReadyWhenExact(b);
    TakenWaiting(s, b, uri, e);
  }

  lemma TakeRows(s: State, p: Partition, uri: string, e: Entry)
    requires p in s.position
    ensures var b := Take(Advance(s, p), uri, e);
      && (forall u :: RowsAt(b.batch, u) == RowsAt(s.batch, u) + if u == uri then [e] else [])
      && (forall u :: u in b.batch <==> u in s.batch || u == uri)
      && b.order == HalfOrder(s, uri) && b.count == s.count + 1
  {
    hide MarksAt;
  }

  lemma TakeMarks(s: State, p: Partition, uri: string, e: Entry)
    requires p in s.position && e.source == p
    requires p in MarksAt(s.offsets, uri) ==> MarksAt(s.offsets, uri)[p] < e.offset
    ensures var b := Take(Advance(s, p), uri, e);
      forall u ::
        MarksAt(b.offsets, u) == if u == uri then MarksAt(s.offsets, u)[p := e.offset] else MarksAt(s.offsets, u)
  {
    hide RowsAt;
  }

  lemma TakenBatch(s: State, p: Partition, uri: string, e: Entry)
    requires HasRecord(s, p) && UriOf(p.topic) == Some(uri) && e.source == p && e.offset == s.position[p]
    requires p in MarksFor(s, p) ==> MarksFor(s, p)[p] < e.offset
    ensures Batched(s, p, uri, e, Take(Advance(s, p), uri, e))
  {
    hide UriOf, RowsAt, MarksAt;
    TakeRows(s, p, uri, e);
    TakeMarks(s, p, uri, e);
  }

  lemma TakenWaiting(s: State, b: State, uri: string, e: Entry)
    requires Ready(s) && Ready(b) && b.order == HalfOrder(s, uri)
    requires forall u :: RowsAt(b.batch, u) == RowsAt(s.batch, u) + if u == uri then [e] else []
    ensures Waiting(b.batch, b.order) == Waiting(s.batch, s.order) + 1
  {
    hide Fresh, Distinct;
    WaitingGrows(s.batch, b.batch, b.order, uri, e);
    if uri in s.batch {
      assert uri in b.order;
    } else {
      assert b.order[..|b.order| - 1] == s.order;
      assert b.order[|b.order| - 1] == uri;
    }
  }

  /** The pending marker of a partition is below its position. */
  lemma BelowMark(s: State, p: Partition)
    requires Inv(s) && HasRecord(s, p)
    ensures p in MarksFor(s, p) ==> MarksFor(s, p)[p] < s.position[p]
  {
    hide FeedRow, UriOf, Data, OfKey, Durable, Shape, Waits;
    TakeKeeps(p, s.logs[p], TableFor(s, p), RowsFor(s, p), MarksFor(s, p), s.position[p]);
  }

  // ---- The size of a batch ----

  /** The counter is the number of rows waiting, and stays below the limit. */
  ghost predicate Sized(s: State, limit: nat) {
    && Distinct(s.order) && (forall uri :: uri in s.order <==> uri in s.batch)
    && s.count == Waiting(s.batch, s.order) && (s.count == 0 || s.count < limit)
  }

  lemma FlushSized(s: State, plan: Plan, last: Plan)
    requires Distinct(s.order) && (forall uri :: uri in s.order <==> uri in s.batch)
    ensures var t := FlushOrStop(s, plan, last);
      t.batch == map[] && (s.batch != map[] ==> t.order == [] && t.count == 0)
      && (s.batch == map[] ==> t == s)
  {
    hide FlushTables, Distinct;
  }

  lemma TakeSized(s: State, p: Partition, uri: string, e: Entry)
    requires Distinct(s.order) && (forall u :: u in s.order <==> u in s.batch) && p in s.position
    ensures var b := Take(Advance(s, p), uri, e);
      && Distinct(b.order) && (forall u :: u in b.order <==> u in b.batch) && uri in b.batch
      && Waiting(b.batch, b.order) == Waiting(s.batch, s.order) + 1 && b.count == s.count + 1
  {
    hide Distinct, Take, Advance;
    TakeRows(s, p, uri, e);
    var b := Take(Advance(s, p), uri, e);
    if uri !in s.batch {
      OrderExtends(s.order, uri);
      assert b.order[..|b.order| - 1] == s.order && b.order[|b.order| - 1] == uri;
    }
    WaitingGrows(s.batch, b.batch, b.order, uri, e);
    assert uri in b.order;
  }

  lemma HaltSized(s: State, limit: nat)
    ensures Sized(Halt(s), limit)
  {
  }

  lemma DeliverSized(s: State, p: Partition, elapsed: bool, plan: Plan, last: Plan, limit: nat)
    requires Sized(s, limit) && HasRecord(s, p)
    ensures Sized(DeliverStep(s, p, elapsed, plan, last, limit), limit)
  {
    hide Distinct, FlushOrStop, FeedRow, UriOf, Take, Flush;
    var payload := s.logs[p][s.position[p]];
    FeedTopic(p.topic, payload);
    HaltSized(Flush(Advance(s, p), last).0, limit);
    if FeedRow(p.topic, payload).Some? {
      var uri, e := UriOf(p.topic).value, Entry(p, s.position[p], FeedRow(p.topic, payload).value);
      TakeSized(s, p, uri, e);
      FlushSized(Take(Advance(s, p), uri, e), plan, last);
      NoneDistinct();
    }
  }

  lemma NoneDistinct()
    ensures Distinct([])
  {
  }

  lemma StepSized(s: State, ev: Event, limit: nat)
    requires Sized(s, limit)
    ensures Sized(Step(s, ev, limit), limit)
  {
    hide Distinct, FlushOrStop, Flush, DeliverStep;
    HaltSized(s, limit);
    match ev
    case Quiet(_, plan, last) =>
      FlushSized(s, plan, last);
      NoneDistinct();
    case Fatal(last) => HaltSized(Flush(s, last).0, limit);
    case Deliver(p, elapsed, plan, last) =>
      if s.running && HasRecord(s, p) {
        DeliverSized(s, p, elapsed, plan, last, limit);
      }
    case Interrupt(last) => HaltSized(Flush(s, last).0, limit);
    case _ =>
  }

  /** In every run, covered or not, no more rows wait than the limit allows, and the counter counts them. */
  lemma {:induction false} BatchBounded(s: State, evs: seq<Event>, limit: nat)
    requires Sized(s, limit)
    ensures Sized(Run(s, evs, limit), limit)
    decreases |evs|
  {
    hide Sized, Step;
    if evs != [] {
      StepSized(s, evs[0], limit);
      BatchBounded(Step(s, evs[0], limit), evs[1..], limit);
    }
  }

  // ---- The world around the process ----

  /** A kill leaves the stores and nothing else; a new record lies at the end of its log. */
  lemma WorldSteps(s: State, p: Partition, x: Payload, limit: nat)
    ensures var t := Step(s, Kill, limit);
      && t.tables == s.tables && t.committed == s.committed && t.logs == s.logs
      && !t.running && t.batch == map[] && t.offsets == map[] && t.position == map[] && t.stored == map[]
    ensures var t := Step(s, Produce(p, x), limit);
      && t == s.(logs := t.logs) && p in t.logs && t.logs[p][|t.logs[p]| - 1] == x
      && (p in s.logs ==> t.logs[p] == s.logs[p] + [x])
  {
  }
}
