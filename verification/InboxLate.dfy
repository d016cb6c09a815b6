/** Apply requests that outlive their client: the watcher gives up on one, and the service commits it later. */
module InboxLate {
  import opened Wrappers
  import opened Sequences
  import opened Transform
  import opened Postgres
  import opened Inbox
  import opened InboxMirror

  /** A request the watcher has given up on, and the versions it read. */
  datatype Request = Request(lo: nat, end: nat, changes: seq<Change>)

  /** The mirror, the requests still under way, where the last read ended, and the last version a commit reached. */
  datatype World = World(mirror: Mirror, late: seq<Request>, readTo: nat, reached: nat)

  datatype LateEvent =
    | Watch(ev: Event)
    | GiveUp
    | Land(i: nat)

  /** The post takes effect: there is nothing to apply, or the service commits. */
  ghost predicate TakesEffect(s: Mirror, ev: Event, pk: string) {
    ev.Post? && s.phase.Loaded? && (s.phase.changes == [] || (Keyed(s.phase.changes, pk) && ev.reply != Refused))
  }

  ghost function LateStep(w: World, ev: LateEvent, schema: Schema): World
    requires schema.Valid()
  {
    match ev
    case Watch(inner) =>
      var after := Step(w.mirror, inner, schema);
      World(after, w.late, if inner.Load? && after != w.mirror then inner.end else w.readTo,
            if TakesEffect(w.mirror, inner, schema.pk) then w.readTo else w.reached)
    case GiveUp =>
      if w.mirror.phase.Loaded? && w.mirror.saved >= -1
         && w.mirror.phase.changes != [] && Keyed(w.mirror.phase.changes, schema.pk)
      then w.(mirror := w.mirror.(phase := Idle),
              late := w.late + [Request(w.mirror.saved + 1, w.readTo, w.mirror.phase.changes)])
      else w
    case Land(i) =>
      if i < |w.late| && Keyed(w.late[i].changes, schema.pk)
      then w.(mirror := w.mirror.(rows := ApplyAll(w.mirror.rows, w.late[i].changes, schema)),
              late := w.late[..i] + w.late[i + 1..],
              reached := if w.late[i].end > w.reached then w.late[i].end else w.reached)
      else w
  }

  /** A request under way is the net of the versions it read, and it began at or below what is mirrored. */
  ghost predicate Pending(w: World, r: Request, pk: string) {
    && r.lo <= r.end <= |w.mirror.log| && r.lo <= w.reached
    && r.changes == NetChanges(History(w.mirror.log, r.lo, r.end, pk), pk)
    && (w.mirror.phase.Opened? ==> r.end <= w.mirror.phase.current + 1)
    && (w.mirror.phase.Loaded? ==> r.end <= w.readTo)
  }

  ghost predicate LateInv(w: World, start: Rows, schema: Schema, columns: set<string>)
    requires schema.Valid()
  {
    && InvAt(w.mirror, start, w.reached, schema, columns)
    && (w.mirror.phase.Loaded? ==> w.reached <= w.readTo && LoadedTo(w.mirror, w.readTo, schema.pk))
    && forall i | 0 <= i < |w.late| :: Pending(w, w.late[i], schema.pk)
  }

  /** Every key the request touches is past what is mirrored, or is still as the request leaves it. */
  ghost predicate StillTrue(w: World, r: Request, schema: Schema, columns: set<string>)
    requires r.lo <= r.end && w.reached <= |w.mirror.log|
  {
    r.end <= w.reached ==> StillCurrent(w.mirror.log, r.lo, r.end, w.reached, schema, columns)
  }

  /** A late commit of a request whose read went further than anything committed brings the mirror there. */
  lemma LandAdvances(w: World, start: Rows, r: Request, schema: Schema, columns: set<string>)
    requires schema.Valid() && LateInv(w, start, schema, columns) && Pending(w, r, schema.pk) && r.end >= w.reached
    ensures MirrorsAt(ApplyAll(w.mirror.rows, r.changes, schema), start, w.mirror.log, r.end, schema, columns)
  {
    hide Agree, WellFormed, Covers, NetChanges, ApplyAll, MirrorsAt, InboxShape, History, LoadedTo;
    ReadAdvances(w.mirror.(saved := r.lo - 1), start, w.reached, r.end, schema, columns);
  }

  lemma LandRest(w: World, i: nat, start: Rows, schema: Schema, columns: set<string>)
    requires schema.Valid() && LateInv(w, start, schema, columns) && i < |w.late|
    ensures Keyed(w.late[i].changes, schema.pk)
    ensures var after := LateStep(w, Land(i), schema);
      LateInv(after, start, schema, columns) <==>
        MirrorsAt(after.mirror.rows, start, after.mirror.log, after.reached, schema, columns)
  {
    hide Agree, Covers, NetChanges, ApplyAll, MirrorsAt, InboxShape, History, LoadedTo;
    assert Pending(w, w.late[i], schema.pk);
    ApplyAllWellFormed(w.mirror.rows, w.late[i].changes, schema);
    hide WellFormed;
    var after := LateStep(w, Land(i), schema);
    forall j | 0 <= j < |after.late|
      ensures Pending(after, after.late[j], schema.pk)
    {
      assert after.late[j] == w.late[if j < i then j else j + 1];
    }
    if w.mirror.phase.Loaded? {
      LoadedSame(w.mirror, after.mirror, w.readTo, schema.pk);
    }
  }

  lemma LoadedSame(s: Mirror, t: Mirror, end: nat, pk: string)
    requires s.phase.Loaded? && -1 <= s.saved && t == s.(rows := t.rows) && LoadedTo(s, end, pk)
    ensures LoadedTo(t, end, pk)
  {
    hide History, NetChanges;
  }

  /** A late commit keeps the mirror exactly when nothing it touches has moved on. */
  lemma LandExact(w: World, i: nat, start: Rows, schema: Schema, columns: set<string>)
    requires schema.Valid() && LateInv(w, start, schema, columns) && i < |w.late|
    ensures Pending(w, w.late[i], schema.pk) && w.reached <= |w.mirror.log|
    ensures LateInv(LateStep(w, Land(i), schema), start, schema, columns) <==> StillTrue(w, w.late[i], schema, columns)
  {
    hide Agree, WellFormed, Covers, NetChanges, ApplyAll, MirrorsAt, InboxShape, History, StillCurrent, LoadedTo;
    var r := w.late[i];
    assert Pending(w, r, schema.pk);
    LandRest(w, i, start, schema, columns);
    if r.end > w.reached {
      LandAdvances(w, start, r, schema, columns);
    } else {
      LatePostExact(w.mirror, start, w.reached, r.lo, r.end, schema, columns);
    }
  }

  /** Writes keep the inbox's shape, and a late commit finds nothing moved on. */
  ghost predicate LateAllowed(w: World, ev: LateEvent, schema: Schema, columns: set<string>) {
    match ev
    case Watch(inner) => Allowed(w.mirror, inner, schema, columns)
    case GiveUp => true
    case Land(i) =>
      i < |w.late| && w.late[i].lo <= w.late[i].end && w.reached <= |w.mirror.log| ==>
        StillTrue(w, w.late[i], schema, columns)
  }

  lemma PostReaches(w: World, start: Rows, reply: Reply, schema: Schema, columns: set<string>)
    requires schema.Valid() && LateInv(w, start, schema, columns) && w.mirror.phase.Loaded?
    ensures var after := LateStep(w, Watch(Post(reply)), schema);
      InvAt(after.mirror, start, after.reached, schema, columns) && !after.mirror.phase.Loaded?
  {
    hide Agree, WellFormed, Covers, NetChanges, ApplyAll, MirrorsAt, InboxShape, History;
    var s := w.mirror;
    ReadAdvances(s, start, w.reached, w.readTo, schema, columns);
    ApplyAllWellFormed(s.rows, s.phase.changes, schema);
    if s.phase.changes == [] {
      NothingToApply(s.rows, schema);
    }
  }

  /** Requests under way are untouched by what the watcher does, and by what others write to the inbox. */
  lemma StillPending(w: World, t: World, r: Request, pk: string)
    requires Pending(w, r, pk) && t.reached >= w.reached
    requires t.mirror.log == w.mirror.log || exists commit :: t.mirror.log == w.mirror.log + [commit]
    requires t.mirror.phase.Opened? ==> r.end <= t.mirror.phase.current + 1
    requires t.mirror.phase.Loaded? ==> r.end <= t.readTo
    ensures Pending(t, r, pk)
  {
    hide NetChanges, History;
    if t.mirror.log != w.mirror.log {
      var commit :| t.mirror.log == w.mirror.log + [commit];
      HistoryGrows(w.mirror.log, commit, r.lo, r.end, pk);
    }
  }

  lemma AllStillPending(w: World, t: World, pk: string)
    requires t.late == w.late && forall i | 0 <= i < |w.late| :: Pending(w, w.late[i], pk)
    requires t.reached >= w.reached
    requires t.mirror.log == w.mirror.log || exists commit :: t.mirror.log == w.mirror.log + [commit]
    requires t.mirror.phase.Opened? ==> t.mirror.phase == w.mirror.phase || t.mirror.phase.current + 1 == |w.mirror.log|
    requires t.mirror.phase.Loaded? ==>
      (t.mirror.phase == w.mirror.phase && t.readTo >= w.readTo) ||
      (w.mirror.phase.Opened? && t.readTo > w.mirror.phase.current)
    ensures forall i | 0 <= i < |t.late| :: Pending(t, t.late[i], pk)
  {
    hide NetChanges, History;
    forall i | 0 <= i < |t.late|
      ensures Pending(t, t.late[i], pk)
    {
      assert Pending(w, w.late[i], pk);
      StillPending(w, t, t.late[i], pk);
    }
  }

  lemma LoadReaches(w: World, start: Rows, end: nat, cdf: seq<CdfRow>, schema: Schema, columns: set<string>)
    requires schema.Valid() && LateInv(w, start, schema, columns) && w.mirror.phase.Opened?
    requires w.mirror.phase.current < end <= |w.mirror.log| && IsCdf(cdf, w.mirror.log, w.mirror.saved + 1, end)
    ensures LateInv(LateStep(w, Watch(Load(end, cdf)), schema), start, schema, columns)
  {
    hide Agree, WellFormed, Covers, NetChanges, ApplyAll, MirrorsAt, InboxShape;
    hide IsCdf, Commits, SortByVersion, Changes, Pending;
    var after := LateStep(w, Watch(Load(end, cdf)), schema);
    LoadKeeps(w.mirror, start, w.reached, end, cdf, schema, columns);
    assert Versioned(w.mirror.log) by { ShapeVersioned(w.mirror.log, schema, columns); }
    SortedIsCommitOrder(cdf, w.mirror.log, w.mirror.saved + 1, end);
    AllStillPending(w, after, schema.pk);
  }

  lemma ShapeVersioned(log: Log, schema: Schema, columns: set<string>)
    requires InboxShape(log, schema, columns)
    ensures Versioned(log)
  {
    hide Covers, History;
  }

  lemma WriteReaches(w: World, start: Rows, commit: seq<CdfRow>, schema: Schema, columns: set<string>)
    requires schema.Valid() && LateInv(w, start, schema, columns)
    requires InboxShape(w.mirror.log + [commit], schema, columns)
    ensures LateInv(LateStep(w, Watch(Write(commit)), schema), start, schema, columns)
  {
    hide Agree, WellFormed, Covers, NetChanges, ApplyAll, MirrorsAt, InboxShape, History, Pending;
    var after := LateStep(w, Watch(Write(commit)), schema);
    if after.mirror != w.mirror {
      WriteKeeps(w.mirror, start, w.reached, commit, schema, columns);
      if w.mirror.phase.Loaded? {
        HistoryGrows(w.mirror.log, commit, w.mirror.saved + 1, w.readTo, schema.pk);
      }
      assert after.mirror.log == w.mirror.log + [commit];
    }
    AllStillPending(w, after, schema.pk);
  }

  /** Whatever the watcher does, what was reached stays reached and requests under way stay what they were. */
  lemma WatchKeeps(w: World, start: Rows, ev: Event, schema: Schema, columns: set<string>)
    requires schema.Valid() && LateInv(w, start, schema, columns) && Allowed(w.mirror, ev, schema, columns)
    ensures LateInv(LateStep(w, Watch(ev), schema), start, schema, columns)
  {
    hide Agree, WellFormed, Covers, NetChanges, ApplyAll, MirrorsAt, InboxShape, History, IsCdf, NetOfRead, Pending,
      LoadedTo;
    var after := LateStep(w, Watch(ev), schema);
    match ev
    case Write(commit) => WriteReaches(w, start, commit, schema, columns);
    case Open => AllStillPending(w, after, schema.pk);
    case Load(end, cdf) =>
      if after != w {
        if after.mirror != w.mirror {
          LoadReaches(w, start, end, cdf, schema, columns);
        }
      }
    case Post(reply) =>
      if w.mirror.phase.Loaded? {
        PostReaches(w, start, reply, schema, columns);
      }
      AllStillPending(w, after, schema.pk);
    case Save(works) => AllStillPending(w, after, schema.pk);
    case Crash => AllStillPending(w, after, schema.pk);
  }

  lemma GiveUpKeeps(w: World, start: Rows, schema: Schema, columns: set<string>)
    requires schema.Valid() && LateInv(w, start, schema, columns)
    ensures LateInv(LateStep(w, GiveUp, schema), start, schema, columns)
  {
    hide Agree, WellFormed, Covers, NetChanges, ApplyAll, MirrorsAt, InboxShape, History;
    var after := LateStep(w, GiveUp, schema);
    if after != w {
      var added := after.late[|w.late|];
      assert Pending(after, added, schema.pk);
      forall i | 0 <= i < |after.late|
        ensures Pending(after, after.late[i], schema.pk)
      {
        if i < |w.late| {
          assert after.late[i] == w.late[i] && Pending(w, w.late[i], schema.pk);
        }
      }
    }
  }

  /** Every step of the watcher, the inbox and the late requests keeps the mirror. */
  lemma LateKeeps(w: World, start: Rows, ev: LateEvent, schema: Schema, columns: set<string>)
    requires schema.Valid() && LateInv(w, start, schema, columns) && LateAllowed(w, ev, schema, columns)
    ensures LateInv(LateStep(w, ev, schema), start, schema, columns)
  {
    hide LateInv, StillTrue, Allowed;
    match ev
    case Watch(inner) => WatchKeeps(w, start, inner, schema, columns);
    case GiveUp => GiveUpKeeps(w, start, schema, columns);
    case Land(i) =>
      if i < |w.late| {
        LandExact(w, i, start, schema, columns);
      }
  }

  ghost function LateRun(w: World, evs: seq<LateEvent>, schema: Schema): World
    requires schema.Valid()
  {
    if evs == [] then w else LateStep(LateRun(w, evs[..|evs| - 1], schema), evs[|evs| - 1], schema)
  }

  ghost predicate AllAllowed(w: World, evs: seq<LateEvent>, schema: Schema, columns: set<string>)
    requires schema.Valid()
  {
    evs == [] ||
    (AllAllowed(w, evs[..|evs| - 1], schema, columns) &&
     LateAllowed(LateRun(w, evs[..|evs| - 1], schema), evs[|evs| - 1], schema, columns))
  }

  /** The watcher starts with nothing saved, nothing reached and no request under way. */
  ghost predicate LateInitial(w: World, schema: Schema, columns: set<string>) {
    Initial(w.mirror, schema, columns) && w.late == [] && w.reached == 0
  }

  /** Over every run with any number of late commits of requests that still hold, Postgres mirrors what was reached. */
  lemma {:induction false} LateRunMirrors(w: World, evs: seq<LateEvent>, schema: Schema, columns: set<string>)
    requires schema.Valid() && columns <= schema.columns
    requires LateInitial(w, schema, columns) && AllAllowed(w, evs, schema, columns)
    ensures LateInv(LateRun(w, evs, schema), w.mirror.rows, schema, columns)
    decreases |evs|
  {
    hide Initial, LateAllowed, LateStep, InvAt, Pending;
    if evs == [] {
      StartMirrors(w.mirror, schema, columns);
      StartIdle(w.mirror, schema, columns);
    } else {
      hide LateInv;
      LateRunMirrors(w, evs[..|evs| - 1], schema, columns);
      LateKeeps(LateRun(w, evs[..|evs| - 1], schema), w.mirror.rows, evs[|evs| - 1], schema, columns);
    }
  }

  lemma StartIdle(s: Mirror, schema: Schema, columns: set<string>)
    requires Initial(s, schema, columns)
    ensures s.phase == Idle
  {
    hide WellFormed, InboxShape;
  }

  // ---- A late commit that undoes a newer change ----

  lemma OneChange(r: CdfRow, pk: string)
    requires r.changeType != "update_preimage" && pk in r.row
    ensures Changes([r], pk) == [Change(r.changeType == "delete", r.row)] && SortByVersion([r]) == [r]
  {
    assert [r][..0] == [];
    assert Changes([], pk) == [] && SortByVersion([]) == [];
    assert Insert([], r) == [r];
  }

  lemma NetOfOne(c: Change, pk: string)
    requires pk in c.row
    ensures NetChanges([c], pk) == [c]
  {
    assert [c][..0] == [] && NetOf([], pk) == Net([], map[]);
    assert NetOf([c], pk).order == [c.row[pk]];
  }

  /** Row `first` in version 0 and row `second` of the same key in version 1. */
  function Commit(version: nat, row: Row): seq<CdfRow> {
    [CdfRow(if version == 0 then "insert" else "update_postimage", version, row)]
  }

  lemma ReadsOne(first: Row, pk: string)
    requires pk in first
    ensures NetOfRead(Commit(0, first), pk) == [Change(false, first)]
  {
    hide NetChanges, SortByVersion, Changes;
    OneChange(Commit(0, first)[0], pk);
    assert Commit(0, first) == [Commit(0, first)[0]];
    NetOfOne(Change(false, first), pk);
  }

  lemma ReadsTwo(first: Row, second: Row, pk: string)
    requires pk in first && pk in second && first[pk] == second[pk]
    ensures NetOfRead(Commit(0, first) + Commit(1, second), pk) == [Change(false, second)]
  {
    hide NetChanges, SortByVersion, Changes;
    var a, b := Commit(0, first)[0], Commit(1, second)[0];
    OneChange(a, pk);
    OneChange(b, pk);
    assert Commit(0, first) + Commit(1, second) == [a] + [b];
    ChangesConcat([a], [b], pk);
    assert SortByVersion([a] + [b]) == [a] + [b] by { SortTwo(a, b); }
    assert Changes([a] + [b], pk) == [Change(false, first), Change(false, second)];
    NetOfTwo(Change(false, first), Change(false, second), pk);
  }

  lemma SortTwo(a: CdfRow, b: CdfRow)
    requires a.version <= b.version
    ensures SortByVersion([a] + [b]) == [a] + [b]
  {
    assert ([a] + [b])[..1] == [a] && [a][..0] == [];
    assert Insert([], a) == [a] && SortByVersion([a]) == [a];
  }

  lemma ReadsCommits(first: Row, second: Row)
    ensures IsCdf(Commit(0, first), [Commit(0, first)], 0, 1)
    ensures IsCdf(Commit(0, first) + Commit(1, second), [Commit(0, first), Commit(1, second)], 0, 2)
  {
    var a, b := Commit(0, first), Commit(1, second);
    forall v: nat
      ensures OfKey(a, ByVersion, v) == (if v == 0 then a else []) && OfKey(b, ByVersion, v) == if v == 1 then b else []
      ensures OfKey(a + b, ByVersion, v) == OfKey(a, ByVersion, v) + OfKey(b, ByVersion, v)
    {
      OneCommit(a, 0, v);
      OneCommit(b, 1, v);
      OfKeyConcat(a, b, ByVersion, v);
    }
  }

  lemma RunSnoc(w: World, evs: seq<LateEvent>, ev: LateEvent, schema: Schema)
    requires schema.Valid()
    ensures LateRun(w, evs + [ev], schema) == LateStep(LateRun(w, evs, schema), ev, schema)
  {
    hide LateStep;
    assert (evs + [ev])[..|evs + [ev]| - 1] == evs;
  }

  /** The first read is given up on, the second one is applied and saved, and then the first one commits. */
  function UndoingRun(first: Row, second: Row): seq<LateEvent> {
    [Watch(Write(Commit(0, first))), Watch(Open), Watch(Load(1, Commit(0, first))), GiveUp] +
    [Watch(Write(Commit(1, second))), Watch(Open), Watch(Load(2, Commit(0, first) + Commit(1, second)))] +
    [Watch(Post(Accepted)), Watch(Save(true)), Land(0)]
  }

  lemma GivenUp(first: Row, schema: Schema)
    requires schema.Valid() && schema.pk in first
    ensures var w := World(Mirror([], map[], -1, Idle), [], 0, 0);
      var evs := [Watch(Write(Commit(0, first))), Watch(Open), Watch(Load(1, Commit(0, first))), GiveUp];
      LateRun(w, evs, schema) ==
        World(Mirror([Commit(0, first)], map[], -1, Idle), [Request(0, 1, [Change(false, first)])], 1, 0)
  {
    hide IsCdf, NetOfRead, LateRun, ApplyAll, OfKey;
    var w := World(Mirror([], map[], -1, Idle), [], 0, 0);
    ReadsOne(first, schema.pk);
    ReadsCommits(first, first);
    assert LateRun(w, [], schema) == w by { NothingRun(w, schema); }
    RunSnoc(w, [], Watch(Write(Commit(0, first))), schema);
    RunSnoc(w, [] + [Watch(Write(Commit(0, first)))], Watch(Open), schema);
    RunSnoc(w, [] + [Watch(Write(Commit(0, first)))] + [Watch(Open)], Watch(Load(1, Commit(0, first))), schema);
    var loaded := [] + [Watch(Write(Commit(0, first)))] + [Watch(Open)] + [Watch(Load(1, Commit(0, first)))];
    RunSnoc(w, loaded, GiveUp, schema);
    assert [] + [Watch(Write(Commit(0, first)))] + [Watch(Open)] + [Watch(Load(1, Commit(0, first)))] + [GiveUp] ==
      [Watch(Write(Commit(0, first))), Watch(Open), Watch(Load(1, Commit(0, first))), GiveUp];
    assert [] + [Commit(0, first)] == [Commit(0, first)];
  }

  lemma NothingRun(w: World, schema: Schema)
    requires schema.Valid()
    ensures LateRun(w, [], schema) == w
  {
  }

  lemma {:induction false} RunConcat(w: World, a: seq<LateEvent>, b: seq<LateEvent>, schema: Schema)
    requires schema.Valid()
    ensures LateRun(w, a + b, schema) == LateRun(LateRun(w, a, schema), b, schema)
    decreases |b|
  {
    hide LateStep;
    if b == [] {
      assert a + b == a;
    } else {
      RunConcat(w, a, b[..|b| - 1], schema);
      assert (a + b)[..|a + b| - 1] == a + b[..|b| - 1];
    }
  }

  lemma ReadAgain(first: Row, second: Row, late: seq<Request>, schema: Schema)
    requires schema.Valid() && schema.pk in first && schema.pk in second && first[schema.pk] == second[schema.pk]
    ensures var w := World(Mirror([Commit(0, first)], map[], -1, Idle), late, 1, 0);
      var evs := [Watch(Write(Commit(1, second))), Watch(Open), Watch(Load(2, Commit(0, first) + Commit(1, second)))];
      LateRun(w, evs, schema) ==
        World(Mirror([Commit(0, first), Commit(1, second)], map[], -1, Loaded(1, [Change(false, second)])), late, 2, 0)
  {
    hide IsCdf, NetOfRead, LateRun, ApplyAll, OfKey;
    var w := World(Mirror([Commit(0, first)], map[], -1, Idle), late, 1, 0);
    var a, b := Watch(Write(Commit(1, second))), Watch(Load(2, Commit(0, first) + Commit(1, second)));
    ReadsTwo(first, second, schema.pk);
    ReadsCommits(first, second);
    NothingRun(w, schema);
    RunSnoc(w, [], a, schema);
    RunSnoc(w, [] + [a], Watch(Open), schema);
    RunSnoc(w, [] + [a] + [Watch(Open)], b, schema);
    assert [] + [a] + [Watch(Open)] + [b] == [a, Watch(Open), b];
    assert [Commit(0, first)] + [Commit(1, second)] == [Commit(0, first), Commit(1, second)];
  }

  lemma AppliedThenLate(log: Log, first: Row, second: Row, schema: Schema)
    requires schema.Valid() && schema.pk in first && schema.pk in second && |log| == 2
    ensures var r := Request(0, 1, [Change(false, first)]);
      var w := World(Mirror(log, map[], -1, Loaded(1, [Change(false, second)])), [r], 2, 0);
      LateRun(w, [Watch(Post(Accepted)), Watch(Save(true)), Land(0)], schema) ==
        World(
          Mirror(log, Upsert(Upsert(map[], Project(second, schema), schema), Project(first, schema), schema), 1, Idle),
          [], 2, 2)
  {
    hide LateRun, Upsert, Project;
    var r := Request(0, 1, [Change(false, first)]);
    var w := World(Mirror(log, map[], -1, Loaded(1, [Change(false, second)])), [r], 2, 0);
    ProjectKeeps(first, schema);
    ProjectKeeps(second, schema);
    ApplyOne(map[], second, schema);
    ApplyOne(Upsert(map[], Project(second, schema), schema), first, schema);
    NothingRun(w, schema);
    RunSnoc(w, [], Watch(Post(Accepted)), schema);
    RunSnoc(w, [] + [Watch(Post(Accepted))], Watch(Save(true)), schema);
    RunSnoc(w, [] + [Watch(Post(Accepted))] + [Watch(Save(true))], Land(0), schema);
    assert [] + [Watch(Post(Accepted))] + [Watch(Save(true))] + [Land(0)] ==
      [Watch(Post(Accepted)), Watch(Save(true)), Land(0)];
    assert [r][..0] + [r][0 + 1..] == [];
  }

  lemma ProjectKeeps(row: Row, schema: Schema)
    requires schema.Valid() && schema.pk in row
    ensures schema.pk in Project(row, schema) && Project(row, schema)[schema.pk] == row[schema.pk]
  {
  }

  /** From an empty start: the inbox's newest row is saved as applied, and Postgres shows the older one. */
  lemma LateCommitUndoes(first: Row, second: Row, schema: Schema, column: string)
    requires schema.Valid() && schema.pk in first && schema.pk in second && first[schema.pk] == second[schema.pk]
    requires column in schema.columns && column in first && column != schema.pk
    ensures var w0 := World(Mirror([], map[], -1, Idle), [], 0, 0);
      var w := LateRun(w0, UndoingRun(first, second), schema); var k := first[schema.pk];
      && LateInitial(w0, schema, schema.columns)
      && w.mirror.saved == 1 && w.reached == 2 && w.mirror.log == [Commit(0, first), Commit(1, second)]
      && k in w.mirror.rows && column in w.mirror.rows[k] && w.mirror.rows[k][column] == first[column]
  {
    hide LateRun, Upsert, IsCdf;
    var w0 := World(Mirror([], map[], -1, Idle), [], 0, 0);
    var a := [Watch(Write(Commit(0, first))), Watch(Open), Watch(Load(1, Commit(0, first))), GiveUp];
    var b := [Watch(Write(Commit(1, second))), Watch(Open), Watch(Load(2, Commit(0, first) + Commit(1, second)))];
    var c := [Watch(Post(Accepted)), Watch(Save(true)), Land(0)];
    var log := [Commit(0, first), Commit(1, second)];
    GivenUp(first, schema);
    ReadAgain(first, second, [Request(0, 1, [Change(false, first)])], schema);
    AppliedThenLate(log, first, second, schema);
    RunConcat(w0, a, b, schema);
    RunConcat(w0, a + b, c, schema);
    ProjectKeeps(first, schema);
    ProjectKeeps(second, schema);
    Overwrites(first, second, schema, column);
    EmptyStart(schema);
  }

  lemma Overwrites(first: Row, second: Row, schema: Schema, column: string)
    requires schema.Valid() && schema.pk in first && schema.pk in second && first[schema.pk] == second[schema.pk]
    requires column in schema.columns && column in first && column != schema.pk
    ensures schema.pk in Project(first, schema) && schema.pk in Project(second, schema)
    ensures var k := first[schema.pk];
      var rows := Upsert(Upsert(map[], Project(second, schema), schema), Project(first, schema), schema);
      k in rows && column in rows[k] && rows[k][column] == first[column]
  {
  }

  lemma EmptyStart(schema: Schema)
    requires schema.Valid()
    ensures LateInitial(World(Mirror([], map[], -1, Idle), [], 0, 0), schema, schema.columns)
  {
    assert Commits([], 0, 0) == [] && Changes([], schema.pk) == [];
  }
}
