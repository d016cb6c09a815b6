/** What an undisturbed sink achieves: whatever happened before, a restart delivers everything, once. */
module SinkProgress {
  import opened Wrappers
  import opened Sequences
  import opened Transform
  import opened SinkModel
  import opened SinkSafety

  /** Every append and the commit work. */
  predicate Calm(plan: Plan) {
    plan.commit == Done && forall o | o in plan.appends :: o == Done
  }

  lemma {:induction false} CalmTables(tables: map<string, Table>, batch: map<string, seq<Entry>>,
                                      offsets: map<string, Marks>, order: seq<string>, outcomes: seq<Outcome>)
    requires forall o | o in outcomes :: o == Done
    ensures FlushTables(tables, batch, offsets, order, outcomes).1
    decreases |order|
  {
    if order != [] {
      assert outcomes != [] ==> outcomes[0] in outcomes;
      assert forall o | o in Rest(outcomes) :: o in outcomes;
      var t := AppendTo(TableAt(tables, order[0]), RowsAt(batch, order[0]), MarksAt(offsets, order[0]), Done).0;
      CalmTables(Put(tables, order[0], t), batch, offsets, order[1..], Rest(outcomes));
    }
  }

  lemma CalmFlush(s: State, plan: Plan, last: Plan)
    requires Calm(plan)
    ensures var t := FlushOrStop(s, plan, last);
      t.batch == map[] && t.logs == s.logs && t.running == s.running && t.position == s.position
  {
    hide FlushTables, Shutdown;
    CalmTables(s.tables, s.batch, s.offsets, s.order, plan.appends);
  }

  /** A poll that brings nothing, a notice or a readable record, with stores that work. */
  predicate CalmPoll(s: State, ev: Event) {
    match ev
    case Quiet(_, plan, _) => Calm(plan)
    case Notice => true
    case Deliver(p, _, plan, _) => Calm(plan) && (HasRecord(s, p) ==> s.logs[p][s.position[p]] != Garbled)
    case _ => false
  }

  ghost predicate Undisturbed(s: State, polls: seq<Event>, limit: nat)
    decreases |polls|
  {
    polls == [] || (CalmPoll(s, polls[0]) && Undisturbed(Step(s, polls[0], limit), polls[1..], limit))
  }

  /** How many of the polls bring a record of `p`, if there is one. */
  function Deliveries(polls: seq<Event>, p: Partition): nat {
    if polls == [] then 0
    else (if polls[0].Deliver? && polls[0].p == p then 1 else 0) + Deliveries(polls[1..], p)
  }

  /** A readable record at the position is consumed, flush or not. */
  lemma DeliverAdvances(s: State, p: Partition, elapsed: bool, plan: Plan, last: Plan, limit: nat)
    requires s.running && HasRecord(s, p) && s.logs[p][s.position[p]] != Garbled && Calm(plan)
    ensures var t := Step(s, Deliver(p, elapsed, plan, last), limit);
      t.running && t.logs == s.logs && t.position == s.position[p := s.position[p] + 1]
  {
    hide FeedRow, UriOf, FlushOrStop, Calm;
    var at := s.position[p];
    var moved := Advance(s, p);
    if FeedRow(p.topic, s.logs[p][at]).Some? {
      FeedTopic(p.topic, s.logs[p][at]);
      CalmFlush(Take(moved, UriOf(p.topic).value, Entry(p, at, FeedRow(p.topic, s.logs[p][at]).value)), plan, last);
    }
  }

  /** Undisturbed, a poll moves a position only by delivering its record. */
  lemma CalmStep(s: State, ev: Event, limit: nat)
    requires s.running && CalmPoll(s, ev)
    ensures var t := Step(s, ev, limit);
      && t.running && t.logs == s.logs
      && t.position ==
         if ev.Deliver? && HasRecord(s, ev.p) then s.position[ev.p := s.position[ev.p] + 1] else s.position
  {
    hide FlushOrStop, DeliverStep, Calm;
    match ev
    case Quiet(elapsed, plan, last) => CalmFlush(s, plan, last);
    case Notice =>
    case Deliver(p, elapsed, plan, last) =>
      if HasRecord(s, p) {
        DeliverAdvances(s, p, elapsed, plan, last, limit);
      }
  }

  /** However the polls of different partitions interleave, each delivery of `p` brings `p` one record further. */
  lemma {:induction false} Reaches(s: State, polls: seq<Event>, p: Partition, limit: nat)
    requires s.running && Undisturbed(s, polls, limit)
    requires p in s.position && p in s.logs && s.position[p] <= |s.logs[p]|
    ensures AdmissibleRun(s, polls, limit)
    ensures var t := Run(s, polls, limit);
      && t.running && t.logs == s.logs && p in t.position && t.position[p] <= |t.logs[p]|
      && (t.position[p] >= s.position[p] + Deliveries(polls, p) || t.position[p] == |t.logs[p]|)
    decreases |polls|
  {
    hide Step, CalmPoll;
    if polls != [] {
      CalmStep(s, polls[0], limit);
      assert Admissible(s, polls[0]) by { CalmAdmissible(s, polls[0]); }
      Reaches(Step(s, polls[0], limit), polls[1..], p, limit);
    }
  }

  lemma CalmAdmissible(s: State, ev: Event)
    requires CalmPoll(s, ev)
    ensures Admissible(s, ev)
  {
  }

  ghost predicate Drained(s: State, p: Partition) {
    s.running && p in s.logs && p in s.position && s.position[p] == |s.logs[p]| && s.batch == map[]
  }

  lemma {:induction false} RunSnoc(s: State, evs: seq<Event>, ev: Event, limit: nat)
    ensures Run(s, evs + [ev], limit) == Step(Run(s, evs, limit), ev, limit)
    decreases |evs|
  {
    hide Step;
    if evs == [] {
      assert evs + [ev] == [ev] && [ev][1..] == [];
      assert Run(s, [ev], limit) == Run(Step(s, ev, limit), [], limit);
    } else {
      assert (evs + [ev])[1..] == evs[1..] + [ev];
      RunSnoc(Step(s, evs[0], limit), evs[1..], ev, limit);
    }
  }

  /**
   * Any undisturbed polls of a running sink that deliver `p` often enough, and then one quiet poll after the flush
   * interval, leave all data records of `p` in Delta, each once, and nothing pending.
   */
  lemma Drains(s: State, polls: seq<Event>, plan: Plan, last: Plan, p: Partition, limit: nat)
    requires Inv(s) && s.running && p in s.position && Undisturbed(s, polls, limit) && Calm(plan)
    requires p in s.logs && Deliveries(polls, p) >= |s.logs[p]| - s.position[p]
    ensures var t := Run(s, polls + [Quiet(true, plan, last)], limit);
      && Inv(t) && Drained(t, p) && t.logs == s.logs
      && OfKey(TableFor(t, p).rows, BySource, p) == Data(p, s.logs[p], 0, |s.logs[p]|)
  {
    hide OfKey, Data, Run, Inv, FeedRow, UriOf, TableFor, FlushOrStop, Undisturbed, AdmissibleRun;
    InRange(s, p);
    Reaches(s, polls, p, limit);
    RunKeeps(s, polls, limit);
    var reached := Run(s, polls, limit);
    CalmFlush(reached, plan, last);
    StepKeeps(reached, Quiet(true, plan, last), limit);
    RunSnoc(s, polls, Quiet(true, plan, last), limit);
    DrainedIsComplete(Run(s, polls + [Quiet(true, plan, last)], limit), p);
  }

  lemma InRange(s: State, p: Partition)
    requires Inv(s) && p in s.position
    ensures p in s.logs && s.position[p] <= |s.logs[p]|
  {
    hide OfKey, Data, Durable, Shape, FeedRow, UriOf;
    assert Waits(p, s.logs[p], TableFor(s, p), RowsFor(s, p), MarksFor(s, p), s.position[p]);
  }

  /**
   * Whatever a run left in the stores, a restart with readable markers and any undisturbed polls that deliver `p`
   * often enough end with all its data records in Delta, each once.
   */
  lemma RestartDelivers(s: State, polls: seq<Event>, plan: Plan, last: Plan, p: Partition, limit: nat)
    requires Inv(s) && s.batch == map[] && p in s.logs && Calm(plan)
    requires Undisturbed(Step(s, Rebalance({}), limit), polls, limit)
    requires Deliveries(polls, p) >= |s.logs[p]| - Resume(s, p, {})
    ensures var t := Run(s, [Rebalance({})] + polls + [Quiet(true, plan, last)], limit);
      && Inv(t) && Drained(t, p) && t.logs == s.logs
      && OfKey(TableFor(t, p).rows, BySource, p) == Data(p, s.logs[p], 0, |s.logs[p]|)
  {
    hide OfKey, Data, Inv, Step, FeedRow, UriOf, TableFor, Undisturbed, Resume;
    var started := Step(s, Rebalance({}), limit);
    Restarts(s, p, limit);
    Drains(started, polls, plan, last, p, limit);
    var evs := [Rebalance({})] + polls + [Quiet(true, plan, last)];
    assert evs[0] == Rebalance({}) && evs[1..] == polls + [Quiet(true, plan, last)];
  }

  lemma Restarts(s: State, p: Partition, limit: nat)
    requires Inv(s) && s.batch == map[] && p in s.logs
    ensures var t := Step(s, Rebalance({}), limit);
      Inv(t) && t.running && t.logs == s.logs && p in t.position && t.position[p] == Resume(s, p, {})
  {
    hide OfKey, Data, Durable, Shape, FeedRow, UriOf, ResumesPast, Resume;
    ReadableAssign(s);
    StepKeeps(s, Rebalance({}), limit);
  }

  /** Such polls exist whenever the rest of the log is readable. */
  lemma {:induction false} CanDrain(s: State, p: Partition, limit: nat) returns (polls: seq<Event>)
    requires s.running && p in s.position && p in s.logs && s.position[p] <= |s.logs[p]|
    requires forall o | s.position[p] <= o < |s.logs[p]| :: s.logs[p][o] != Garbled
    ensures Undisturbed(s, polls, limit) && Deliveries(polls, p) == |s.logs[p]| - s.position[p]
    decreases |s.logs[p]| - s.position[p]
  {
    hide Step;
    polls := [];
    if s.position[p] < |s.logs[p]| {
      var calm := Plan([], Done);
      var ev := Deliver(p, false, calm, calm);
      DeliverAdvances(s, p, false, calm, calm, limit);
      var rest := CanDrain(Step(s, ev, limit), p, limit);
      polls := [ev] + rest;
      assert polls[0] == ev && polls[1..] == rest;
    }
  }
}
