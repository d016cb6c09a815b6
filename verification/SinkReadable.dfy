/** With readable markers, Kafka's offset of a partition that has a marker does not matter. */
module SinkReadable {
  import opened Wrappers
  import opened Transform
  import opened SinkModel
  import opened SinkSafety

  /** `t` is `s` but for the committed offsets of partitions that have a marker. */
  ghost predicate Shadows(s: State, t: State) {
    && t == s.(committed := t.committed)
    && SameUnmarked(s, s.committed, t.committed)
  }

  ghost predicate SameUnmarked(s: State, a: Marks, b: Marks) {
    forall p | p !in TableFor(s, p).markers :: (p in a <==> p in b) && (p in a ==> a[p] == b[p])
  }

  /** A marker, once there, stays. */
  lemma {:induction false} MarkersStay(tables: map<string, Table>, batch: map<string, seq<Entry>>,
      offsets: map<string, Marks>, order: seq<string>, outcomes: seq<Outcome>, uri: string, p: Partition)
    requires p in TableAt(tables, uri).markers
    ensures p in TableAt(FlushTables(tables, batch, offsets, order, outcomes).0, uri).markers
    decreases |order|
  {
    hide AlreadyApplied;
    if order != [] {
      var own := order[0];
      var t := AppendTo(TableAt(tables, own), RowsAt(batch, own), MarksAt(offsets, own), First(outcomes)).0;
      MarkersStay(Put(tables, own, t), batch, offsets, order[1..], Rest(outcomes), uri, p);
    }
  }

  lemma UnmarkedBefore(s: State, t: State, outcomes: seq<Outcome>, p: Partition)
    requires t.tables == FlushTables(s.tables, s.batch, s.offsets, s.order, outcomes).0
    requires p !in TableFor(t, p).markers
    ensures p !in TableFor(s, p).markers
  {
    hide FlushTables, UriOf;
    if UriOf(p.topic).Some? && p in TableFor(s, p).markers {
      MarkersStay(s.tables, s.batch, s.offsets, s.order, outcomes, UriOf(p.topic).value, p);
    }
  }

  lemma EndedWith(s: State, t: State, tables: map<string, Table>, ok: bool, commit: Outcome)
    requires t == s.(committed := t.committed)
    ensures var told := ok && commit != Failed;
      && Ended(t, tables, ok, commit).1 == Ended(s, tables, ok, commit).1
      && Ended(t, tables, ok, commit).0 ==
         Ended(s, tables, ok, commit).0.(committed := if told then t.committed + s.stored else t.committed)
      && Ended(s, tables, ok, commit).0.committed == if told then s.committed + s.stored else s.committed
  {
  }

  lemma FlushWith(s: State, t: State, plan: Plan)
    requires t == s.(committed := t.committed)
    ensures var told := Told(s, plan);
      && Flush(t, plan).1 == Flush(s, plan).1
      && Flush(t, plan).0 == Flush(s, plan).0.(committed := if told then t.committed + s.stored else t.committed)
      && Flush(s, plan).0.committed == if told then s.committed + s.stored else s.committed
  {
    if s.batch != map[] {
      hide FlushTables, Flush, Ended, Told;
      FlushIs(s, plan);
      FlushIs(t, plan);
      var written := FlushTables(s.tables, s.batch, s.offsets, s.order, plan.appends);
      EndedWith(s, t, written.0, written.1, plan.commit);
    }
  }

  lemma ShadowFlush(s: State, t: State, plan: Plan)
    requires Shadows(s, t)
    ensures Shadows(Flush(s, plan).0, Flush(t, plan).0) && Flush(s, plan).1 == Flush(t, plan).1
  {
    hide Flush, TableFor, Told, SameUnmarked;
    FlushWith(s, t, plan);
    var after, other := Flush(s, plan).0, Flush(t, plan).0;
    assert SameUnmarked(after, after.committed, other.committed) by {
      FlushUnmarked(s, t, plan);
    }
  }

  lemma FlushUnmarked(s: State, t: State, plan: Plan)
    requires Shadows(s, t)
    ensures var after := Flush(s, plan).0;
      && SameUnmarked(after, s.committed, t.committed)
      && SameUnmarked(after, s.committed + s.stored, t.committed + s.stored)
  {
    hide Flush, TableFor;
    forall p | p !in TableFor(Flush(s, plan).0, p).markers
      ensures p !in TableFor(s, p).markers
    {
      FlushMarks(s, plan, p);
    }
  }

  lemma FlushMarks(s: State, plan: Plan, p: Partition)
    requires p !in TableFor(Flush(s, plan).0, p).markers
    ensures p !in TableFor(s, p).markers
  {
    hide FlushTables, TableFor;
    if s.batch != map[] {
      UnmarkedBefore(s, Flush(s, plan).0, plan.appends, p);
    } else {
      assert Flush(s, plan).0 == s;
    }
  }

  lemma ShadowStop(s: State, t: State, plan: Plan, last: Plan)
    requires Shadows(s, t)
    ensures Shadows(Shutdown(s, last), Shutdown(t, last))
    ensures Shadows(FlushOrStop(s, plan, last), FlushOrStop(t, plan, last))
  {
    hide Flush, TableFor;
    ShadowFlush(s, t, plan);
    ShadowFlush(s, t, last);
    ShadowFlush(Flush(s, plan).0, Flush(t, plan).0, last);
    ShadowHalt(Flush(s, last).0, Flush(t, last).0);
    ShadowHalt(Flush(Flush(s, plan).0, last).0, Flush(Flush(t, plan).0, last).0);
  }

  lemma ShadowHalt(s: State, t: State)
    requires Shadows(s, t)
    ensures Shadows(Halt(s), Halt(t))
  {
    hide UriOf;
    assert forall p :: TableFor(Halt(s), p) == TableFor(s, p);
  }

  lemma ShadowTake(s: State, t: State, uri: string, e: Entry)
    requires Shadows(s, t)
    ensures Shadows(Take(s, uri, e), Take(t, uri, e))
  {
    hide UriOf;
    assert forall p :: TableFor(Take(s, uri, e), p) == TableFor(s, p);
  }

  lemma ShadowAdvance(s: State, t: State, p: Partition)
    requires Shadows(s, t) && p in s.position
    ensures Shadows(Advance(s, p), Advance(t, p))
  {
    hide TableFor, SameUnmarked;
    SameTablesUnmarked(s, Advance(s, p), s.committed, t.committed);
  }

  lemma ShadowDeliver(s: State, t: State, p: Partition, elapsed: bool, plan: Plan, last: Plan, limit: nat)
    requires Shadows(s, t) && HasRecord(s, p)
    ensures Shadows(DeliverStep(s, p, elapsed, plan, last, limit), DeliverStep(t, p, elapsed, plan, last, limit))
  {
    hide Shadows, FeedRow, UriOf, FlushOrStop, Shutdown, Take;
    assert t.position == s.position && t.logs == s.logs by { ShadowSame(s, t); }
    ShadowAdvance(s, t, p);
    var a, b := Advance(s, p), Advance(t, p);
    var payload := s.logs[p][s.position[p]];
    ShadowStop(a, b, plan, last);
    if FeedRow(p.topic, payload).Some? {
      FeedTopic(p.topic, payload);
      var uri, e := UriOf(p.topic).value, Entry(p, s.position[p], FeedRow(p.topic, payload).value);
      ShadowTake(a, b, uri, e);
      ShadowStop(Take(a, uri, e), Take(b, uri, e), plan, last);
      ShadowSame(Take(a, uri, e), Take(b, uri, e));
    }
  }

  lemma ShadowSame(s: State, t: State)
    requires Shadows(s, t)
    ensures t == s.(committed := t.committed)
  {
  }

  /** Assignments can read every marker; resets are a separate matter. */
  predicate Plain(ev: Event) {
    !ev.Reset? && (ev.Rebalance? ==> ev.unreadable == {})
  }

  lemma ShadowStep(s: State, t: State, ev: Event, limit: nat)
    requires Shadows(s, t) && Plain(ev)
    ensures Shadows(Step(s, ev, limit), Step(t, ev, limit))
  {
    hide FlushOrStop, Shutdown, DeliverStep, Halt, Assign, Shadows;
    ShadowSame(s, t);
    match ev
    case Quiet(elapsed, plan, last) => ShadowStop(s, t, plan, last);
    case Notice =>
    case Fatal(last) => ShadowStop(s, t, last, last);
    case Deliver(p, elapsed, plan, last) =>
      if HasRecord(s, p) {
        ShadowDeliver(s, t, p, elapsed, plan, last, limit);
      }
    case Interrupt(last) => ShadowStop(s, t, last, last);
    case Kill => ShadowHalt(s, t);
    case Rebalance(unreadable) => ShadowAssign(s, t);
    case Produce(p, x) => ShadowProduce(s, t, p, x, limit);
  }

  lemma ShadowProduce(s: State, t: State, p: Partition, x: Payload, limit: nat)
    requires Shadows(s, t)
    ensures Shadows(Step(s, Produce(p, x), limit), Step(t, Produce(p, x), limit))
  {
    hide TableFor, SameUnmarked;
    SameTablesUnmarked(s, Step(s, Produce(p, x), limit), s.committed, t.committed);
  }

  lemma ShadowAssign(s: State, t: State)
    requires Shadows(s, t)
    ensures Shadows(Assign(s, {}), Assign(t, {}))
  {
    hide UriOf, Resume, TableAt;
    forall p
      ensures Resume(t, p, {}) == Resume(s, p, {})
    {
      ResumeSame(s, t, p);
    }
    assert Assign(s, {}).position == Assign(t, {}).position;
    SameTablesUnmarked(s, Assign(s, {}), s.committed, t.committed);
  }

  lemma ResumeSame(s: State, t: State, p: Partition)
    requires Shadows(s, t)
    ensures Resume(t, p, {}) == Resume(s, p, {})
  {
    hide UriOf, TableAt;
    assert TableFor(t, p) == TableFor(s, p);
  }

  lemma SameTablesUnmarked(s: State, t: State, a: Marks, b: Marks)
    requires SameUnmarked(s, a, b) && t.tables == s.tables
    ensures SameUnmarked(t, a, b)
  {
    hide UriOf, TableAt;
    assert forall p :: TableFor(t, p) == TableFor(s, p);
  }

  lemma {:induction false} ShadowRun(s: State, t: State, evs: seq<Event>, limit: nat)
    requires Shadows(s, t) && forall ev | ev in evs :: Plain(ev)
    ensures Shadows(Run(s, evs, limit), Run(t, evs, limit))
    decreases |evs|
  {
    hide Shadows, Step;
    if evs != [] {
      assert evs[0] in evs;
      ShadowStep(s, t, evs[0], limit);
      ShadowRun(Step(s, evs[0], limit), Step(t, evs[0], limit), evs[1..], limit);
    }
  }

  lemma ShadowReset(s: State, t: State, p: Partition, offset: nat, limit: nat)
    requires Shadows(s, t)
    ensures p in TableFor(s, p).markers ==> Shadows(Step(s, Reset(p, offset), limit), t)
    ensures p !in TableFor(s, p).markers ==> Shadows(Step(s, Reset(p, offset), limit), Step(t, Reset(p, offset), limit))
  {
    hide Step, TableFor;
    ResetIs(s, p, offset, limit);
    ResetIs(t, p, offset, limit);
    var after, other := Step(s, Reset(p, offset), limit), Step(t, Reset(p, offset), limit);
    if p in TableFor(s, p).markers {
      SameTablesUnmarked(s, after, after.committed, t.committed);
    } else {
      SameTablesUnmarked(s, after, after.committed, other.committed);
    }
  }

  /** Resetting a partition that has a marker, to any offset, changes nothing in any table, whatever follows. */
  lemma MarkedResetIrrelevant(s: State, p: Partition, offset: nat, evs: seq<Event>, limit: nat)
    requires p in TableFor(s, p).markers && forall ev | ev in evs :: Plain(ev)
    ensures Run(Step(s, Reset(p, offset), limit), evs, limit).tables == Run(s, evs, limit).tables
  {
    hide Run, Step, TableFor, Shadows, Plain;
    assert Shadows(s, s) by { Itself(s); }
    ShadowReset(s, s, p, offset, limit);
    ShadowRun(Step(s, Reset(p, offset), limit), s, evs, limit);
    ShadowSame(Run(Step(s, Reset(p, offset), limit), evs, limit), Run(s, evs, limit));
  }

  lemma Itself(s: State)
    ensures Shadows(s, s)
  {
  }

  // ---- Exactly-once under any resets of marked partitions ----

  /** Assignments are readable and find nothing pending; a reset of an unmarked partition skips no data. */
  ghost predicate Allowed(s: State, ev: Event) {
    match ev
    case Rebalance(unreadable) => unreadable == {} && s.batch == map[]
    case Reset(p, offset) =>
      p in s.logs && offset <= |s.logs[p]| && p !in TableFor(s, p).markers ==> Data(p, s.logs[p], 0, offset) == []
    case _ => true
  }

  ghost predicate AllowedRun(s: State, evs: seq<Event>, limit: nat)
    decreases |evs|
  {
    evs == [] || (Allowed(s, evs[0]) && AllowedRun(Step(s, evs[0], limit), evs[1..], limit))
  }

  lemma AllowedStep(s: State, t: State, ev: Event, limit: nat) returns (next: State)
    requires Shadows(s, t) && Inv(t) && Allowed(s, ev)
    ensures Shadows(Step(s, ev, limit), next) && Inv(next)
  {
    hide Inv, Step, UriOf, FeedRow, Data;
    ShadowSame(s, t);
    assert forall p :: TableFor(t, p) == TableFor(s, p);
    if ev.Reset? && ev.p in TableFor(s, ev.p).markers {
      ShadowReset(s, t, ev.p, ev.offset, limit);
      next := t;
    } else {
      if ev.Reset? {
        ShadowReset(s, t, ev.p, ev.offset, limit);
      } else {
        ShadowStep(s, t, ev, limit);
      }
      if ev.Rebalance? {
        ReadableAssign(t);
      }
      StepKeeps(t, ev, limit);
      next := Step(t, ev, limit);
    }
  }

  lemma {:induction false} AllowedKeeps(s: State, t: State, evs: seq<Event>, limit: nat) returns (last: State)
    requires Shadows(s, t) && Inv(t) && AllowedRun(s, evs, limit)
    ensures Shadows(Run(s, evs, limit), last) && Inv(last)
    decreases |evs|
  {
    hide Shadows, Inv, Allowed, Step;
    if evs == [] {
      last := t;
    } else {
      var next := AllowedStep(s, t, evs[0], limit);
      last := AllowedKeeps(Step(s, evs[0], limit), next, evs[1..], limit);
    }
  }

  /**
   * With readable markers, Delta holds each record exactly once over every run, even if the offsets of partitions
   * that have a marker are reset at will, forwards or backwards, at any time.
   */
  lemma ExactlyOnceDespiteResets(s0: State, evs: seq<Event>, limit: nat, p: Partition)
    requires Initial(s0) && AllowedRun(s0, evs, limit) && p in Run(s0, evs, limit).logs
    ensures var s := Run(s0, evs, limit); ExactlyOnceIn(p, s.logs[p], TableFor(s, p))
  {
    hide Shadows, Inv, AllowedRun, Run, FeedRow, UriOf, Data;
    StartsExact(s0);
    Itself(s0);
    var t := AllowedKeeps(s0, s0, evs, limit);
    var s := Run(s0, evs, limit);
    ShadowSame(s, t);
    InvExact(t, p);
  }
}
