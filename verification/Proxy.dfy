/** The wake protocol of the connection proxy in simulated mode. */
module Proxy {
  import opened Wrappers

  datatype Compute = Active | Waking | Suspended

  datatype Timer = NoTimer | Armed | Expired

  /** The manager's fields, and how many times the compute was suspended. */
  datatype Shared = Shared(compute: Compute, conns: int, timer: Timer, wakes: nat, total: nat, suspends: nat)

  // ---- The critical sections ----

  function Opened(m: Shared): Shared {
    m.(conns := m.conns + 1, total := m.total + 1, timer := NoTimer)
  }

  /** The idle timer starts when the last connection closes and auto-suspend is on. */
  function Closed(m: Shared, autoSuspend: bool): Shared {
    m.(conns := m.conns - 1, timer := if autoSuspend && m.conns - 1 <= 0 then Armed else m.timer)
  }

  function Suspend(m: Shared): Shared {
    m.(compute := Suspended, suspends := m.suspends + 1)
  }

  /** After a wake that nobody disturbs. */
  function Woken(m: Shared): Shared {
    m.(compute := Active, wakes := if m.compute == Active then m.wakes else m.wakes + 1)
  }

  class Manager {
    const autoSuspend: bool
    var state: Compute
    var activeConns: int
    var idleTimer: Timer
    var wakeCount: nat
    var totalConns: nat
    ghost var suspends: nat

    constructor (autoSuspend: bool, state: Compute)
      ensures this.autoSuspend == autoSuspend && Now() == Shared(state, 0, NoTimer, 0, 0, 0)
    {
      this.autoSuspend, this.state := autoSuspend, state;
      activeConns, idleTimer, wakeCount, totalConns, suspends := 0, NoTimer, 0, 0, 0;
    }

    ghost function Now(): Shared
      reads this
    {
      Shared(state, activeConns, idleTimer, wakeCount, totalConns, suspends)
    }

    method SetState(s: Compute)
      modifies this
      ensures Now() == old(Now()).(compute := s)
    {
      state := s;
    }

    method ConnOpened()
      modifies this
      ensures Now() == Opened(old(Now()))
    {
      activeConns := activeConns + 1;
      totalConns := totalConns + 1;
      if idleTimer != NoTimer {
        idleTimer := NoTimer;
      }
    }

    method ConnClosed()
      modifies this
      ensures Now() == Closed(old(Now()), autoSuspend)
    {
      activeConns := activeConns - 1;
      if autoSuspend && activeConns <= 0 {
        idleTimer := Armed;
      }
    }

    method DoSuspend()
      modifies this
      ensures Now() == Suspend(old(Now()))
    {
      SetState(Suspended);
      suspends := suspends + 1;
    }

    method SuspendIfIdle()
      modifies this
      ensures Now() == if old(activeConns) == 0 then Suspend(old(Now())) else old(Now())
    {
      var idle := activeConns == 0;
      if idle {
        DoSuspend();
      }
    }

    /** With nobody else running: one cold start unless already active. */
    method EnsureAwake()
      modifies this
      ensures Now() == Woken(old(Now()))
    {
      if state == Active {
        return;
      }
      SetState(Waking);
      SetState(Active);
      wakeCount := wakeCount + 1;
    }
  }

  // ---- Any number of handlers at once ----

  /** Where a handler is; `seen` is the suspend count when it last knew the compute to be active. */
  datatype Pc =
    | Reading
    | Refused
    | Waiting
    | Checking
    | Starting
    | Sleeping
    | Counting(seen: nat)
    | Leaving(seen: nat)
    | Dialing(seen: nat)
    | Open(seen: nat)
    | Gone(seen: nat)

  /** Handlers, the wake lock's holder, and idle-timer goroutines before and after their check. */
  datatype System = System(m: Shared, pcs: map<nat, Pc>, holder: Option<nat>, fired: nat, deciding: nat)

  datatype Event =
    | Arrive(h: nat)
    | Startup(h: nat, ok: bool)
    | Acquire(h: nat)
    | Proceed(h: nat)
    | Dial(h: nat, ok: bool)
    | Close(h: nat)
    | Fire
    | CheckIdle
    | SuspendIdle
    | ForceSuspend

  function Move(s: System, h: nat, pc: Pc, m: Shared): System {
    s.(m := m, pcs := s.pcs[h := pc])
  }

  /** The holder of the wake lock takes its next step. */
  function ProceedStep(s: System, h: nat): System
    requires h in s.pcs
  {
    match s.pcs[h]
    case Checking => Move(s, h, if s.m.compute == Active then Leaving(s.m.suspends) else Starting, s.m)
    case Starting => Move(s, h, Sleeping, s.m.(compute := Waking))
    case Sleeping => Move(s, h, Counting(s.m.suspends), s.m.(compute := Active))
    case Counting(seen) => Move(s, h, Leaving(seen), s.m.(wakes := s.m.wakes + 1))
    case Leaving(seen) => Move(s, h, Dialing(seen), s.m).(holder := None)
    case _ => s
  }

  function Step(s: System, ev: Event, autoSuspend: bool): System {
    match ev
    case Arrive(h) => if h in s.pcs then s else Move(s, h, Reading, s.m)
    case Startup(h, ok) =>
      if h in s.pcs && s.pcs[h] == Reading then Move(s, h, if ok then Waiting else Refused, s.m) else s
    case Acquire(h) =>
      if h in s.pcs && s.pcs[h] == Waiting && s.holder == None then Move(s, h, Checking, s.m).(holder := Some(h)) else s
    case Proceed(h) => if h in s.pcs then ProceedStep(s, h) else s
    case Dial(h, ok) =>
      if h in s.pcs && s.pcs[h].Dialing? then
        var seen := s.pcs[h].seen;
        if ok then Move(s, h, Open(seen), Opened(s.m)) else Move(s, h, Gone(seen), s.m)
      else s
    case Close(h) =>
      if h in s.pcs && s.pcs[h].Open? then Move(s, h, Gone(s.pcs[h].seen), Closed(s.m, autoSuspend)) else s
    case Fire => if s.m.timer == Armed then s.(m := s.m.(timer := Expired), fired := s.fired + 1) else s
    case CheckIdle =>
      if s.fired == 0 then s
      else s.(fired := s.fired - 1, deciding := if s.m.conns == 0 then s.deciding + 1 else s.deciding)
    case SuspendIdle => if s.deciding == 0 then s else s.(m := Suspend(s.m), deciding := s.deciding - 1)
    case ForceSuspend => s.(m := Suspend(s.m))
  }

  function Run(s: System, evs: seq<Event>, autoSuspend: bool): System {
    if evs == [] then s else Step(Run(s, evs[..|evs| - 1], autoSuspend), evs[|evs| - 1], autoSuspend)
  }

  function Start(compute: Compute): System {
    System(Shared(compute, 0, NoTimer, 0, 0, 0), map[], None, 0, 0)
  }

  // ---- What every interleaving keeps ----

  predicate InSection(pc: Pc) {
    pc.Checking? || pc.Starting? || pc.Sleeping? || pc.Counting? || pc.Leaving?
  }

  function OpenHandlers(s: System): set<nat> {
    set h | h in s.pcs && s.pcs[h].Open?
  }

  predicate PastWake(pc: Pc) {
    pc.Counting? || pc.Leaving? || pc.Dialing? || pc.Open? || pc.Gone?
  }

  /** A cold start under way that is not yet counted. */
  function Uncounted(s: System): nat {
    if s.holder.Some? && s.holder.value in s.pcs &&
       var pc := s.pcs[s.holder.value]; pc.Starting? || pc.Sleeping? || pc.Counting?
    then 1 else 0
  }

  /** A suspension that no cold start has taken up yet. */
  function Owed(s: System): nat {
    if s.m.compute != Active &&
       !(s.holder.Some? && s.holder.value in s.pcs &&
         var pc := s.pcs[s.holder.value]; pc.Starting? || pc.Sleeping?)
    then 1 else 0
  }

  ghost predicate Exclusive(s: System) {
    && (s.holder.Some? ==> s.holder.value in s.pcs)
    && forall h | h in s.pcs :: InSection(s.pcs[h]) <==> s.holder == Some(h)
  }

  /** The counter is the number of open handlers, and a timer means there is none. */
  ghost predicate Counted(s: System) {
    s.m.conns == |OpenHandlers(s)| && (s.m.timer != NoTimer ==> s.m.conns == 0)
  }

  /** The compute is down while a cold start is about to raise it, and up since it was last seen up unless suspended. */
  ghost predicate Seen(s: System) {
    && (forall h | h in s.pcs && (s.pcs[h].Starting? || s.pcs[h].Sleeping?) :: s.m.compute != Active)
    && (forall h | h in s.pcs && PastWake(s.pcs[h]) ::
          s.pcs[h].seen <= s.m.suspends && (s.pcs[h].seen == s.m.suspends ==> s.m.compute == Active))
    && (forall h, w | h in s.pcs && w in s.pcs && s.pcs[w].Counting? && PastWake(s.pcs[h]) && !s.pcs[h].Counting? ::
          s.pcs[h].seen < s.m.suspends)
  }

  /** Every cold start answers a suspension, or the initial one. */
  ghost predicate Accounted(s: System, initial: nat) {
    && Uncounted(s) + s.m.wakes + Owed(s) <= s.m.suspends + initial
    && (s.m.suspends == 0 ==> Uncounted(s) + s.m.wakes + Owed(s) == initial)
  }

  ghost predicate Inv(s: System, initial: nat) {
    Exclusive(s) && Counted(s) && Seen(s) && Accounted(s, initial)
  }

  lemma MoveOpen(s: System, h: nat, pc: Pc, m: Shared)
    ensures OpenHandlers(Move(s, h, pc, m)) == if pc.Open? then OpenHandlers(s) + {h} else OpenHandlers(s) - {h}
  {
  }

  lemma SameHandlers(s: System, t: System)
    requires t.pcs == s.pcs
    ensures OpenHandlers(t) == OpenHandlers(s)
  {
  }

  lemma ExclusiveKeeps(s: System, ev: Event, autoSuspend: bool)
    requires Exclusive(s)
    ensures Exclusive(Step(s, ev, autoSuspend))
  {
    hide Opened, Closed, Suspend;
  }

  /** A handler that moves changes the count by entering or leaving the open state. */
  lemma MovedCounted(s: System, t: System, h: nat)
    requires Counted(s) && h in t.pcs && t.pcs == s.pcs[h := t.pcs[h]]
    requires t.m.conns ==
      s.m.conns + (if t.pcs[h].Open? then 1 else 0) - (if h in s.pcs && s.pcs[h].Open? then 1 else 0)
    requires t.m.timer != NoTimer ==> t.m.conns == 0
    ensures Counted(t)
  {
    hide OpenHandlers;
    MoveOpen(s, h, t.pcs[h], t.m);
    SameHandlers(Move(s, h, t.pcs[h], t.m), t);
    IsOpen(s, h);
  }

  lemma HandlerMoves(s: System, h: nat, ok: bool, autoSuspend: bool)
    requires Counted(s)
    ensures Counted(Step(s, Arrive(h), autoSuspend)) && Counted(Step(s, Startup(h, ok), autoSuspend))
    ensures Counted(Step(s, Acquire(h), autoSuspend))
  {
    hide OpenHandlers, ProceedStep;
    if h !in s.pcs {
      MovedCounted(s, Step(s, Arrive(h), autoSuspend), h);
    } else if s.pcs[h] == Reading {
      MovedCounted(s, Step(s, Startup(h, ok), autoSuspend), h);
    } else if s.pcs[h] == Waiting && s.holder == None {
      MovedCounted(s, Step(s, Acquire(h), autoSuspend), h);
    }
  }

  lemma ProceedCounted(s: System, h: nat)
    requires Counted(s) && h in s.pcs
    ensures Counted(ProceedStep(s, h))
  {
    hide OpenHandlers;
    if InSection(s.pcs[h]) {
      MovedCounted(s, ProceedStep(s, h), h);
    }
  }

  lemma ConnectionMoves(s: System, h: nat, ok: bool, autoSuspend: bool)
    requires Counted(s) && h in s.pcs
    ensures Counted(Step(s, Dial(h, ok), autoSuspend)) && Counted(Step(s, Close(h), autoSuspend))
  {
    hide OpenHandlers, ProceedStep;
    if s.pcs[h].Dialing? {
      MovedCounted(s, Step(s, Dial(h, ok), autoSuspend), h);
    } else if s.pcs[h].Open? {
      IsOpen(s, h);
      assert OpenHandlers(s) != {};
      MovedCounted(s, Step(s, Close(h), autoSuspend), h);
    }
  }

  lemma CountedKeeps(s: System, ev: Event, autoSuspend: bool)
    requires Counted(s)
    ensures Counted(Step(s, ev, autoSuspend))
  {
    hide OpenHandlers, ProceedStep;
    match ev
    case Arrive(h) => HandlerMoves(s, h, true, autoSuspend);
    case Startup(h, ok) => HandlerMoves(s, h, ok, autoSuspend);
    case Acquire(h) => HandlerMoves(s, h, true, autoSuspend);
    case Proceed(h) =>
      if h in s.pcs {
        ProceedCounted(s, h);
      }
    case Dial(h, ok) =>
      if h in s.pcs {
        ConnectionMoves(s, h, ok, autoSuspend);
      }
    case Close(h) =>
      if h in s.pcs {
        ConnectionMoves(s, h, true, autoSuspend);
      }
    case _ => SameHandlers(s, Step(s, ev, autoSuspend));
  }

  lemma IsOpen(s: System, h: nat)
    ensures h in OpenHandlers(s) <==> h in s.pcs && s.pcs[h].Open?
  {
  }

  lemma SeenKeeps(s: System, ev: Event, autoSuspend: bool)
    requires Exclusive(s) && Seen(s)
    ensures Seen(Step(s, ev, autoSuspend))
  {
    if ev.Proceed? {
      hide Step;
      if ev.h in s.pcs {
        ProceedSeen(s, ev.h);
      }
      assert Step(s, ev, autoSuspend) == if ev.h in s.pcs then ProceedStep(s, ev.h) else s by {
        ProceedIs(s, ev.h, autoSuspend);
      }
    } else {
      hide ProceedStep;
    }
  }

  lemma ProceedIs(s: System, h: nat, autoSuspend: bool)
    ensures Step(s, Proceed(h), autoSuspend) == if h in s.pcs then ProceedStep(s, h) else s
  {
  }

  lemma ProceedSeen(s: System, h: nat)
    requires Exclusive(s) && Seen(s) && h in s.pcs
    ensures Seen(ProceedStep(s, h))
  {
  }

  lemma AccountedKeeps(s: System, ev: Event, autoSuspend: bool, initial: nat)
    requires Exclusive(s) && Seen(s) && Accounted(s, initial)
    ensures Accounted(Step(s, ev, autoSuspend), initial)
  {
  }

  lemma StepKeeps(s: System, ev: Event, autoSuspend: bool, initial: nat)
    requires Inv(s, initial)
    ensures Inv(Step(s, ev, autoSuspend), initial)
  {
    hide Exclusive, Counted, Seen, Accounted, Step;
    ExclusiveKeeps(s, ev, autoSuspend);
    CountedKeeps(s, ev, autoSuspend);
    SeenKeeps(s, ev, autoSuspend);
    AccountedKeeps(s, ev, autoSuspend, initial);
  }

  lemma {:induction false} RunKeeps(compute: Compute, evs: seq<Event>, autoSuspend: bool)
    requires compute != Waking
    ensures Inv(Run(Start(compute), evs, autoSuspend), if compute == Active then 0 else 1)
    decreases |evs|
  {
    hide Step, Inv;
    if evs == [] {
      StartKeeps(compute);
    } else {
      RunKeeps(compute, evs[..|evs| - 1], autoSuspend);
      StepKeeps(Run(Start(compute), evs[..|evs| - 1], autoSuspend), evs[|evs| - 1], autoSuspend,
                if compute == Active then 0 else 1);
    }
  }

  lemma StartKeeps(compute: Compute)
    requires compute != Waking
    ensures Inv(Start(compute), if compute == Active then 0 else 1)
  {
  }

  /** At most one handler is between taking and giving back the wake lock, in every interleaving. */
  lemma OneColdStart(compute: Compute, evs: seq<Event>, autoSuspend: bool, a: nat, b: nat)
    requires compute != Waking
    requires var s := Run(Start(compute), evs, autoSuspend);
      a in s.pcs && b in s.pcs && InSection(s.pcs[a]) && InSection(s.pcs[b])
    ensures a == b
  {
    hide Run, Start;
    RunKeeps(compute, evs, autoSuspend);
  }

  /** Cold starts never outnumber suspensions, the initial one included. */
  lemma WakesBounded(compute: Compute, evs: seq<Event>, autoSuspend: bool)
    requires compute != Waking
    ensures var s := Run(Start(compute), evs, autoSuspend);
      s.m.wakes <= s.m.suspends + if compute == Active then 0 else 1
  {
    hide Run, Start, Exclusive, Counted, Seen;
    RunKeeps(compute, evs, autoSuspend);
  }

  /** Any number of arrivals without a suspension: one cold start if the compute was down, none if it was up. */
  lemma SingleWake(compute: Compute, evs: seq<Event>, autoSuspend: bool, h: nat)
    requires compute != Waking
    requires var s := Run(Start(compute), evs, autoSuspend);
      s.m.suspends == 0 && h in s.pcs && PastWake(s.pcs[h]) && !s.pcs[h].Counting?
    ensures var s := Run(Start(compute), evs, autoSuspend);
      s.m.wakes == (if compute == Active then 0 else 1) && s.m.compute == Active
  {
    hide Run, Start, Counted;
    RunKeeps(compute, evs, autoSuspend);
    var s := Run(Start(compute), evs, autoSuspend);
    assert s.pcs[h].seen == s.m.suspends;
  }

  /** The connection counter is the number of open handlers, and an armed idle timer means there are none. */
  lemma ConnectionsCounted(compute: Compute, evs: seq<Event>, autoSuspend: bool)
    requires compute != Waking
    ensures var s := Run(Start(compute), evs, autoSuspend);
      s.m.conns == |OpenHandlers(s)| && (s.m.timer == Armed ==> OpenHandlers(s) == {})
  {
    hide Run, Start, Exclusive, Seen, Accounted;
    RunKeeps(compute, evs, autoSuspend);
  }

  /** A connection is on a compute that is not active only after a suspension since its handler saw it active. */
  lemma DownOnlyAfterSuspend(compute: Compute, evs: seq<Event>, autoSuspend: bool, h: nat)
    requires compute != Waking
    requires var s := Run(Start(compute), evs, autoSuspend); h in s.pcs && s.pcs[h].Open? && s.m.compute != Active
    ensures var s := Run(Start(compute), evs, autoSuspend); s.pcs[h].seen < s.m.suspends
  {
    hide Run, Start, Exclusive, Counted, Accounted;
    RunKeeps(compute, evs, autoSuspend);
  }

  // ---- When a connection can lose its compute ----

  lemma Extend(s0: System, evs: seq<Event>, s: System, ev: Event, autoSuspend: bool)
    requires Run(s0, evs, autoSuspend) == s
    ensures Run(s0, evs + [ev], autoSuspend) == Step(s, ev, autoSuspend)
  {
    hide Step;
    assert (evs + [ev])[..|evs + [ev]| - 1] == evs;
  }

  lemma NoSteps(s: System, autoSuspend: bool)
    ensures Run(s, [], autoSuspend) == s
  {
  }

  lemma {:induction false} RunConcat(s: System, a: seq<Event>, b: seq<Event>, autoSuspend: bool)
    ensures Run(s, a + b, autoSuspend) == Run(Run(s, a, autoSuspend), b, autoSuspend)
    decreases |b|
  {
    hide Step;
    if b == [] {
      assert a + b == a;
    } else {
      RunConcat(s, a, b[..|b| - 1], autoSuspend);
      assert (a + b)[..|a + b| - 1] == a + b[..|b| - 1];
    }
  }

  function WakeSteps(h: nat): seq<Event> {
    [Acquire(h), Proceed(h), Proceed(h), Proceed(h), Proceed(h), Proceed(h)]
  }

  /** A handler whose steps are not interleaved with others does what `EnsureAwake` does. */
  lemma LoneWake(s: System, h: nat, autoSuspend: bool)
    requires h in s.pcs && s.pcs[h] == Waiting && s.holder == None
    ensures Run(s, WakeSteps(h), autoSuspend) == Move(s, h, Dialing(s.m.suspends), Woken(s.m))
  {
    hide Run, Step, ProceedStep, AfterSteps, Woken;
    NoSteps(s, autoSuspend);
    var evs: seq<Event>, t := [], s;
    assert s == AfterSteps(s, h, 0) by { NextWakeStep(s, h, 0, autoSuspend); }
    for i := 0 to 6
      invariant |evs| == i && evs == WakeSteps(h)[..i] && Run(s, evs, autoSuspend) == t
      invariant t == AfterSteps(s, h, i)
    {
      var ev := WakeSteps(h)[i];
      Extend(s, evs, t, ev, autoSuspend);
      NextWakeStep(s, h, i, autoSuspend);
      evs, t := evs + [ev], Step(t, ev, autoSuspend);
    }
    LastWakeStep(s, h);
    assert WakeSteps(h)[..6] == WakeSteps(h);
  }

  /** An undisturbed waiting handler after its first `i` steps. */
  function AfterSteps(s: System, h: nat, i: nat): System {
    var held := s.(holder := Some(h));
    var seen := s.m.suspends;
    if i == 0 then s
    else if i == 1 then Move(held, h, Checking, s.m)
    else if s.m.compute == Active then
      if i == 2 then Move(held, h, Leaving(seen), s.m) else Move(s, h, Dialing(seen), s.m)
    else if i == 2 then Move(held, h, Starting, s.m)
    else if i == 3 then Move(held, h, Sleeping, s.m.(compute := Waking))
    else if i == 4 then Move(held, h, Counting(seen), s.m.(compute := Active))
    else if i == 5 then Move(held, h, Leaving(seen), Woken(s.m))
    else Move(s, h, Dialing(seen), Woken(s.m))
  }

  lemma NextWakeStep(s: System, h: nat, i: nat, autoSuspend: bool)
    requires h in s.pcs && s.pcs[h] == Waiting && s.holder == None && i < 6
    ensures AfterSteps(s, h, 0) == s
    ensures Step(AfterSteps(s, h, i), WakeSteps(h)[i], autoSuspend) == AfterSteps(s, h, i + 1)
  {
    var t := Step(AfterSteps(s, h, i), WakeSteps(h)[i], autoSuspend);
    assert t.pcs == AfterSteps(s, h, i + 1).pcs;
  }

  lemma LastWakeStep(s: System, h: nat)
    ensures AfterSteps(s, h, 6) == Move(s, h, Dialing(s.m.suspends), Woken(s.m))
  {
  }

  function VisitSteps(h: nat): seq<Event> {
    [Arrive(h), Startup(h, true)] + WakeSteps(h)
  }

  /** A handler from its arrival to its dial, nobody interfering. */
  lemma Visit(s: System, h: nat, autoSuspend: bool)
    requires h !in s.pcs && s.holder == None
    ensures Run(s, VisitSteps(h), autoSuspend) == Move(s, h, Dialing(s.m.suspends), Woken(s.m))
  {
    hide Woken, WakeSteps, ProceedStep, Run;
    NoSteps(s, autoSuspend);
    Extend(s, [], s, Arrive(h), autoSuspend);
    var reading := Step(s, Arrive(h), autoSuspend);
    Extend(s, [] + [Arrive(h)], reading, Startup(h, true), autoSuspend);
    assert [] + [Arrive(h)] + [Startup(h, true)] == [Arrive(h), Startup(h, true)];
    var waiting := Step(reading, Startup(h, true), autoSuspend);
    assert reading.pcs[h := Waiting] == s.pcs[h := Waiting];
    assert waiting.pcs[h := Dialing(s.m.suspends)] == s.pcs[h := Dialing(s.m.suspends)];
    RunConcat(s, [Arrive(h), Startup(h, true)], WakeSteps(h), autoSuspend);
    LoneWake(waiting, h, autoSuspend);
  }

  function IdleSteps(h: nat): seq<Event> {
    [Dial(h, true), Close(h), Fire, CheckIdle]
  }

  /** A connection that opens and closes, and the idle timer that then finds nobody. */
  lemma IdleDecided(s: System, h: nat)
    requires h in s.pcs && s.pcs[h].Dialing? && s.m.conns == 0 && s.fired == 0
    ensures var t := Run(s, IdleSteps(h), true);
      && t.pcs == s.pcs[h := Gone(s.pcs[h].seen)] && t.holder == s.holder && t.deciding == s.deciding + 1
      && t.m.compute == s.m.compute && t.m.conns == 0
  {
    hide Run, ProceedStep;
    NoSteps(s, true);
    var a := Step(s, Dial(h, true), true);
    var b := Step(a, Close(h), true);
    var c := Step(b, Fire, true);
    Extend(s, [], s, Dial(h, true), true);
    Extend(s, [] + [Dial(h, true)], a, Close(h), true);
    Extend(s, [] + [Dial(h, true)] + [Close(h)], b, Fire, true);
    Extend(s, [] + [Dial(h, true)] + [Close(h)] + [Fire], c, CheckIdle, true);
    assert [] + [Dial(h, true)] + [Close(h)] + [Fire] + [CheckIdle] == IdleSteps(h);
  }

  /** Handler `h` has an open connection and the compute is not active. */
  predicate Stranded(compute: Compute, evs: seq<Event>, autoSuspend: bool, h: nat) {
    var s := Run(Start(compute), evs, autoSuspend);
    h in s.pcs && s.pcs[h].Open? && s.m.compute != Active
  }

  /** One handler leaves, the idle check finds nobody, a second one connects, and then the check's suspension lands. */
  function StrandingRun(): seq<Event> {
    VisitSteps(1) + IdleSteps(1) + VisitSteps(2) + [Dial(2, true), SuspendIdle]
  }

  lemma LateSuspension(s: System, h: nat)
    requires h in s.pcs && s.pcs[h].Dialing? && s.deciding > 0
    ensures var t := Run(s, [Dial(h, true), SuspendIdle], true);
      h in t.pcs && t.pcs[h].Open? && t.m.compute == Suspended
  {
    hide Run, ProceedStep;
    NoSteps(s, true);
    Extend(s, [], s, Dial(h, true), true);
    var t := Step(s, Dial(h, true), true);
    assert t.deciding == s.deciding && t.pcs[h].Open?;
    Extend(s, [] + [Dial(h, true)], t, SuspendIdle, true);
    assert [] + [Dial(h, true)] + [SuspendIdle] == [Dial(h, true), SuspendIdle];
  }

  lemma NothingForced()
    ensures ForceSuspend !in StrandingRun()
  {
  }

  /** The idle check and the suspension are separate steps, so an idle suspension can land on an open connection. */
  lemma SuspendedWhileConnected(compute: Compute)
    requires compute != Waking
    ensures ForceSuspend !in StrandingRun() && Stranded(compute, StrandingRun(), true, 2)
  {
    hide Woken, VisitSteps, IdleSteps, Run;
    var s0 := Start(compute);
    NothingForced();
    Visit(s0, 1, true);
    var a := Run(s0, VisitSteps(1), true);
    assert a.m.conns == 0 by { WokenKeeps(s0.m); }
    IdleDecided(a, 1);
    RunConcat(s0, VisitSteps(1), IdleSteps(1), true);
    var b := Run(a, IdleSteps(1), true);
    Visit(b, 2, true);
    RunConcat(s0, VisitSteps(1) + IdleSteps(1), VisitSteps(2), true);
    LateSuspension(Run(b, VisitSteps(2), true), 2);
    RunConcat(s0, VisitSteps(1) + IdleSteps(1) + VisitSteps(2), [Dial(2, true), SuspendIdle], true);
  }

  lemma WokenKeeps(m: Shared)
    ensures Woken(m).conns == m.conns && Woken(m).suspends == m.suspends
  {
  }

  /** Without auto-suspend and without a forced suspension no timer is ever armed and nothing is suspended. */
  lemma {:induction false} NeverSuspends(compute: Compute, evs: seq<Event>)
    requires ForceSuspend !in evs
    ensures var s := Run(Start(compute), evs, false);
      s.m.timer == NoTimer && s.fired == 0 && s.deciding == 0 && s.m.suspends == 0
    decreases |evs|
  {
    if evs != [] {
      assert evs[|evs| - 1] in evs;
      NeverSuspends(compute, evs[..|evs| - 1]);
    }
  }

  /**
   * Without forced suspensions, an open connection never loses its compute, in every interleaving, exactly when
   * auto-suspend is off.
   */
  lemma OpenStaysUpExactly(compute: Compute, autoSuspend: bool)
    requires compute != Waking
    ensures (forall evs, h | ForceSuspend !in evs :: !Stranded(compute, evs, autoSuspend, h)) <==> !autoSuspend
  {
    hide Run, Start, StrandingRun;
    if autoSuspend {
      SuspendedWhileConnected(compute);
    } else {
      forall evs, h | ForceSuspend !in evs
        ensures !Stranded(compute, evs, false, h)
      {
        NeverSuspends(compute, evs);
        if Stranded(compute, evs, false, h) {
          DownOnlyAfterSuspend(compute, evs, false, h);
        }
      }
    }
  }

  // ---- Idle checks ----

  /** An idle check that nobody interferes with does what `SuspendIfIdle` does: it suspends when no handler is open. */
  lemma LoneIdle(s: System, autoSuspend: bool)
    requires Counted(s) && s.fired > 0 && s.deciding == 0
    ensures Step(Step(s, CheckIdle, autoSuspend), SuspendIdle, autoSuspend).m ==
      if OpenHandlers(s) == {} then Suspend(s.m) else s.m
  {
    hide Suspend;
  }

  lemma ConnectedCounts(s: System, h: nat)
    requires Counted(s) && h in s.pcs && s.pcs[h].Open?
    ensures s.m.conns > 0
  {
    IsOpen(s, h);
    assert OpenHandlers(s) != {};
  }

  /** While a connection stays open, no idle check decides to suspend. */
  lemma NoDecision(s: System, ev: Event, autoSuspend: bool, h: nat)
    requires Counted(s) && Seen(s) && h in s.pcs && s.pcs[h].Open? && s.deciding == 0
    requires ev != ForceSuspend && ev != Close(h)
    ensures var t := Step(s, ev, autoSuspend);
      && h in t.pcs && t.pcs[h].Open? && t.deciding == 0 && t.m.suspends == s.m.suspends
      && (s.m.compute == Active ==> t.m.compute == Active)
  {
    assert s.m.conns > 0 by { ConnectedCounts(s, h); }
    hide Counted, OpenHandlers;
  }

  /**
   * From any reachable state with an open connection and no suspension decided, nothing suspends the compute as long
   * as that connection stays open and nobody forces it, in every interleaving.
   */
  lemma {:induction false} ConnectedStaysUp(compute: Compute, evs: seq<Event>, more: seq<Event>, autoSuspend: bool,
                                            h: nat)
    requires compute != Waking && ForceSuspend !in more && Close(h) !in more
    requires var s := Run(Start(compute), evs, autoSuspend); h in s.pcs && s.pcs[h].Open? && s.deciding == 0
    ensures var s, t := Run(Start(compute), evs, autoSuspend), Run(Start(compute), evs + more, autoSuspend);
      && h in t.pcs && t.pcs[h].Open? && t.deciding == 0 && t.m.suspends == s.m.suspends
      && (s.m.compute == Active ==> t.m.compute == Active)
    decreases |more|
  {
    hide Step, Run, Start, Exclusive, Counted, Seen, Accounted;
    if more == [] {
      assert evs + more == evs;
    } else {
      var init, ev := more[..|more| - 1], more[|more| - 1];
      assert more == init + [ev] && ev in more;
      assert evs + more == (evs + init) + [ev];
      ConnectedStaysUp(compute, evs, init, autoSuspend, h);
      RunKeeps(compute, evs + init, autoSuspend);
      var mid := Run(Start(compute), evs + init, autoSuspend);
      Extend(Start(compute), evs + init, mid, ev, autoSuspend);
      NoDecision(mid, ev, autoSuspend, h);
    }
  }

  /** When the last connection closes and nobody comes, the compute is suspended exactly when auto-suspend is on. */
  lemma IdleSuspends(s: System, h: nat, autoSuspend: bool)
    requires Counted(s) && OpenHandlers(s) == {h} && s.fired == 0 && s.deciding == 0
    ensures h in s.pcs && s.pcs[h].Open?
    ensures var t := Run(s, [Close(h), Fire, CheckIdle, SuspendIdle], autoSuspend);
      && OpenHandlers(t) == {} && t.m.conns == 0
      && t.m.compute == (if autoSuspend then Suspended else s.m.compute)
      && t.m.suspends == (if autoSuspend then s.m.suspends + 1 else s.m.suspends)
  {
    hide Run;
    IsOpen(s, h);
    NoSteps(s, autoSuspend);
    var a := Step(s, Close(h), autoSuspend);
    var b := Step(a, Fire, autoSuspend);
    var c := Step(b, CheckIdle, autoSuspend);
    Extend(s, [], s, Close(h), autoSuspend);
    Extend(s, [] + [Close(h)], a, Fire, autoSuspend);
    Extend(s, [] + [Close(h)] + [Fire], b, CheckIdle, autoSuspend);
    Extend(s, [] + [Close(h)] + [Fire] + [CheckIdle], c, SuspendIdle, autoSuspend);
    assert [] + [Close(h)] + [Fire] + [CheckIdle] + [SuspendIdle] == [Close(h), Fire, CheckIdle, SuspendIdle];
    MoveOpen(s, h, Gone(s.pcs[h].seen), a.m);
  }

  // ---- Only clients that speak the protocol wake the compute ----

  /** Handlers that never got a startup message are in front of the wake lock or refused. */
  ghost predicate Unserved(s: System, compute: Compute) {
    && s.holder == None && (forall h | h in s.pcs :: s.pcs[h] == Reading || s.pcs[h] == Refused)
    && s.m.wakes == 0 && s.m.total == 0 && s.m.conns == 0 && s.m.timer == NoTimer && s.fired == 0 && s.deciding == 0
    && s.m.compute == if s.m.suspends > 0 then Suspended else compute
  }

  /** Connections that never deliver a startup message neither wake the compute nor count, however many arrive. */
  lemma {:induction false} RefusedNeverWake(compute: Compute, evs: seq<Event>, autoSuspend: bool)
    requires forall h :: Startup(h, true) !in evs
    ensures Unserved(Run(Start(compute), evs, autoSuspend), compute)
    decreases |evs|
  {
    if evs != [] {
      var init, ev := evs[..|evs| - 1], evs[|evs| - 1];
      assert evs == init + [ev] && ev in evs;
      RefusedNeverWake(compute, init, autoSuspend);
    }
  }

  /** How many dials of a run opened a connection. */
  function Dialed(s: System, evs: seq<Event>, autoSuspend: bool): nat {
    if evs == [] then 0
    else
      var before, ev := Run(s, evs[..|evs| - 1], autoSuspend), evs[|evs| - 1];
      Dialed(s, evs[..|evs| - 1], autoSuspend) +
      if ev.Dial? && ev.ok && ev.h in before.pcs && before.pcs[ev.h].Dialing? then 1 else 0
  }

  /** The total is the number of connections opened, over every run. */
  lemma {:induction false} TotalCounts(compute: Compute, evs: seq<Event>, autoSuspend: bool)
    ensures Run(Start(compute), evs, autoSuspend).m.total == Dialed(Start(compute), evs, autoSuspend)
    decreases |evs|
  {
    if evs != [] {
      TotalCounts(compute, evs[..|evs| - 1], autoSuspend);
    }
  }

  /** A forced suspension takes the compute down whoever is connected, and the next handler alone brings it back. */
  lemma ForcedThenWoken(s: System, h: nat, autoSuspend: bool)
    requires h !in s.pcs && s.holder == None
    ensures var down := Step(s, ForceSuspend, autoSuspend); var up := Run(down, VisitSteps(h), autoSuspend);
      && down.pcs == s.pcs && down.m == s.m.(compute := Suspended, suspends := s.m.suspends + 1)
      && up.pcs == s.pcs[h := Dialing(s.m.suspends + 1)] && up.m.compute == Active && up.m.wakes == s.m.wakes + 1
  {
    hide Run, VisitSteps;
    Visit(Step(s, ForceSuspend, autoSuspend), h, autoSuspend);
  }

  /** A handler that is refused or gone takes no further step, whatever else happens. */
  lemma {:induction false} EndsForGood(s: System, evs: seq<Event>, autoSuspend: bool, h: nat)
    requires h in s.pcs && (s.pcs[h].Refused? || s.pcs[h].Gone?)
    ensures var t := Run(s, evs, autoSuspend); h in t.pcs && t.pcs[h] == s.pcs[h]
    decreases |evs|
  {
    hide Step;
    if evs != [] {
      EndsForGood(s, evs[..|evs| - 1], autoSuspend, h);
      EndedStays(Run(s, evs[..|evs| - 1], autoSuspend), evs[|evs| - 1], autoSuspend, h);
    }
  }

  lemma EndedStays(s: System, ev: Event, autoSuspend: bool, h: nat)
    requires h in s.pcs && (s.pcs[h].Refused? || s.pcs[h].Gone?)
    ensures var t := Step(s, ev, autoSuspend); h in t.pcs && t.pcs[h] == s.pcs[h]
  {
    hide Opened, Closed, Suspend;
  }

  /** A dial that fails ends its handler without a connection; a second firing of one idle timer does nothing. */
  lemma FailedDialEnds(s: System, h: nat, evs: seq<Event>, autoSuspend: bool)
    requires h in s.pcs && s.pcs[h].Dialing?
    ensures var failed := Step(s, Dial(h, false), autoSuspend); var t := Run(failed, evs, autoSuspend);
      failed.m == s.m && h in t.pcs && t.pcs[h].Gone?
    ensures Step(Step(s, Fire, autoSuspend), Fire, autoSuspend) == Step(s, Fire, autoSuspend)
  {
    hide Run;
    EndsForGood(Step(s, Dial(h, false), autoSuspend), evs, autoSuspend, h);
  }
}
