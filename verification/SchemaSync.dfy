/** Schema drift between Postgres and the catalog: what is detected, and what re-registering a table repairs. */
module SchemaSync {
  import opened Wrappers
  import opened Sequences
  import opened Text
  import opened TypeKinds
  import opened TypeMapping
  import opened TypeRoundTrip
  import opened UnityCatalog

  datatype PgColumn = PgColumn(name: string, pgType: string, nullable: bool)

  datatype TargetColumn = TargetColumn(name: string, deltaType: string)

  datatype ColumnChange = ColumnChange(name: string, fromType: string, toType: string)

  datatype SchemaDiff = SchemaDiff(added: seq<PgColumn>, removed: seq<TargetColumn>, typeChanged: seq<ColumnChange>) {
    predicate InSync() { added == [] && removed == [] && typeChanged == [] }
  }

  datatype SyncState = InSync | SchemaDrift

  function NextSchemaState(diff: SchemaDiff): SyncState {
    if diff.InSync() then SyncState.InSync else SchemaDrift
  }

  function Norm(deltaType: string): string { Upper(Strip(deltaType)) }

  /** `{c.name: c}` over the target: the last column of a name wins. */
  function ByName(target: seq<TargetColumn>): (m: map<string, string>)
    ensures forall n :: n in m <==> exists c | c in target :: c.name == n
  {
    if target == [] then map[]
    else
      var last := target[|target| - 1];
      assert forall c :: c in target <==> c in target[..|target| - 1] || c == last;
      ByName(target[..|target| - 1])[last.name := last.deltaType]
  }

  function Names(pg: seq<PgColumn>): set<string> {
    set c | c in pg :: c.name
  }

  /** The Delta type a Postgres column should have. */
  function Expected(c: PgColumn): Result<string, string> {
    match MapPgToDelta(c.pgType) case Ok(l) => Ok(l.deltaType) case Err(e) => Err(e)
  }

  /** Columns to add and columns to retype; the first unmappable column raises. */
  function Compare(pg: seq<PgColumn>, targets: map<string, string>)
    : Result<(seq<PgColumn>, seq<ColumnChange>), string>
  {
    if pg == [] then Ok(([], []))
    else
      var c := pg[|pg| - 1];
      match Compare(pg[..|pg| - 1], targets)
      case Err(e) => Err(e)
      case Ok((added, changed)) =>
        match Expected(c)
        case Err(e) => Err(e)
        case Ok(want) =>
          if c.name !in targets then Ok((added + [c], changed))
          else if Norm(want) != Norm(targets[c.name]) then
            Ok((added, changed + [ColumnChange(c.name, targets[c.name], want)]))
          else Ok((added, changed))
  }

  function Dropped(target: seq<TargetColumn>, names: set<string>): seq<TargetColumn> {
    if target == [] then []
    else
      var last := target[|target| - 1];
      Dropped(target[..|target| - 1], names) + (if last.name in names then [] else [last])
  }

  function Diff(pg: seq<PgColumn>, target: seq<TargetColumn>): Result<SchemaDiff, string> {
    match Compare(pg, ByName(target))
    case Err(e) => Err(e)
    case Ok((added, changed)) => Ok(SchemaDiff(added, Dropped(target, Names(pg)), changed))
  }

  lemma {:induction false} CompareFails(pg: seq<PgColumn>, targets: map<string, string>, n: nat)
    requires n <= |pg| && Compare(pg[..n], targets).Err?
    ensures Compare(pg, targets) == Compare(pg[..n], targets)
    decreases |pg|
  {
    hide Expected, Norm;
    if n == |pg| {
      assert pg[..n] == pg;
    } else {
      assert pg[..|pg| - 1][..n] == pg[..n];
      CompareFails(pg[..|pg| - 1], targets, n);
    }
  }

  method DiffSchema(pg: seq<PgColumn>, target: seq<TargetColumn>) returns (diff: Result<SchemaDiff, string>)
    ensures diff == Diff(pg, target)
  {
    hide Expected, Norm;
    var targets: map<string, string> := map[];
    for i := 0 to |target|
      invariant targets == ByName(target[..i])
    {
      assert target[..i + 1][..i] == target[..i];
      targets := targets[target[i].name := target[i].deltaType];
    }
    assert target[..|target|] == target;
    var added: seq<PgColumn>, changed: seq<ColumnChange> := [], [];
    for i := 0 to |pg|
      invariant Compare(pg[..i], targets) == Ok((added, changed))
    {
      assert pg[..i + 1][..i] == pg[..i];
      var want := Expected(pg[i]);
      if want.Err? {
        CompareFails(pg, targets, i + 1);
        return Err(want.error);
      }
      if pg[i].name !in targets {
        added := added + [pg[i]];
      } else if Norm(want.value) != Norm(targets[pg[i].name]) {
        changed := changed + [ColumnChange(pg[i].name, targets[pg[i].name], want.value)];
      }
    }
    assert pg[..|pg|] == pg;
    var names := set c | c in pg :: c.name;
    var removed: seq<TargetColumn> := [];
    for i := 0 to |target|
      invariant removed == Dropped(target[..i], names)
    {
      assert target[..i + 1][..i] == target[..i];
      if target[i].name !in names {
        removed := removed + [target[i]];
      }
    }
    assert target[..|target|] == target;
    return Ok(SchemaDiff(added, removed, changed));
  }

  // ---- The diff as a patch ----

  predicate DistinctPg(pg: seq<PgColumn>) {
    forall i, j | 0 <= i < j < |pg| :: pg[i].name != pg[j].name
  }

  predicate Mappable(pg: seq<PgColumn>) {
    forall c | c in pg :: Expected(c).Ok?
  }

  function Wanted(c: PgColumn): string {
    var want := Expected(c);
    if want.Ok? then Norm(want.value) else ""
  }

  /** A schema as normalized types by column name. */
  function TargetSchema(target: seq<TargetColumn>): map<string, string> {
    var targets := ByName(target);
    map n | n in targets :: Norm(targets[n])
  }

  function AddAll(m: map<string, string>, columns: seq<PgColumn>): map<string, string> {
    if columns == [] then m
    else AddAll(m, columns[..|columns| - 1])[columns[|columns| - 1].name := Wanted(columns[|columns| - 1])]
  }

  function PgSchema(pg: seq<PgColumn>): map<string, string> {
    AddAll(map[], pg)
  }

  function RetypeAll(m: map<string, string>, changes: seq<ColumnChange>): map<string, string> {
    if changes == [] then m
    else RetypeAll(m, changes[..|changes| - 1])[changes[|changes| - 1].name := Norm(changes[|changes| - 1].toType)]
  }

  /** Dropping, adding and retyping what the diff lists. */
  function Patched(m: map<string, string>, diff: SchemaDiff): map<string, string> {
    RetypeAll(AddAll(m - (set c | c in diff.removed :: c.name), diff.added), diff.typeChanged)
  }

  lemma {:induction false} DroppedNames(target: seq<TargetColumn>, names: set<string>)
    ensures forall c :: c in Dropped(target, names) <==> c in target && c.name !in names
  {
    if target != [] {
      DroppedNames(target[..|target| - 1], names);
      assert target == target[..|target| - 1] + [target[|target| - 1]];
    }
  }

  /** The change a retyped column must be listed as. */
  function Retype(c: PgColumn, targets: map<string, string>): Option<ColumnChange> {
    if c.name in targets && Expected(c).Ok? && Wanted(c) != Norm(targets[c.name])
    then Some(ColumnChange(c.name, targets[c.name], Expected(c).value)) else None
  }

  lemma {:induction false} CompareLists(pg: seq<PgColumn>, targets: map<string, string>)
    requires Mappable(pg)
    ensures Compare(pg, targets).Ok?
    ensures forall c :: c in Compare(pg, targets).value.0 <==> c in pg && c.name !in targets
    ensures forall x :: x in Compare(pg, targets).value.1 <==> exists c | c in pg :: Retype(c, targets) == Some(x)
    decreases |pg|
  {
    hide Norm, Expected;
    if pg != [] {
      var init, c := pg[..|pg| - 1], pg[|pg| - 1];
      assert pg == init + [c] && c in pg;
      CompareLists(init, targets);
    }
  }

  lemma {:induction false} AddAllAt(m: map<string, string>, columns: seq<PgColumn>, n: string, w: string)
    requires forall c | c in columns && c.name == n :: Wanted(c) == w
    ensures (exists c | c in columns :: c.name == n) ==> n in AddAll(m, columns) && AddAll(m, columns)[n] == w
    ensures (forall c | c in columns :: c.name != n) ==>
      (n in AddAll(m, columns) <==> n in m) && (n in m ==> AddAll(m, columns)[n] == m[n])
    decreases |columns|
  {
    hide Wanted;
    if columns != [] {
      var init, c := columns[..|columns| - 1], columns[|columns| - 1];
      assert columns == init + [c] && c in columns;
      AddAllAt(m, init, n, w);
    }
  }

  lemma {:induction false} RetypeAllAt(m: map<string, string>, changes: seq<ColumnChange>, n: string, w: string)
    requires forall x | x in changes && x.name == n :: Norm(x.toType) == w
    ensures (exists x | x in changes :: x.name == n) ==> n in RetypeAll(m, changes) && RetypeAll(m, changes)[n] == w
    ensures (forall x | x in changes :: x.name != n) ==>
      (n in RetypeAll(m, changes) <==> n in m) && (n in m ==> RetypeAll(m, changes)[n] == m[n])
    decreases |changes|
  {
    hide Norm;
    if changes != [] {
      var init, x := changes[..|changes| - 1], changes[|changes| - 1];
      assert changes == init + [x] && x in changes;
      RetypeAllAt(m, init, n, w);
    }
  }

  lemma SameColumn(pg: seq<PgColumn>, a: PgColumn, b: PgColumn)
    requires DistinctPg(pg) && a in pg && b in pg && a.name == b.name
    ensures a == b
  {
    var i :| 0 <= i < |pg| && pg[i] == a;
    var j :| 0 <= j < |pg| && pg[j] == b;
  }

  lemma PatchedAt(pg: seq<PgColumn>, target: seq<TargetColumn>, diff: SchemaDiff, n: string)
    requires Mappable(pg) && DistinctPg(pg) && Diff(pg, target) == Ok(diff)
    ensures var after, goal := Patched(TargetSchema(target), diff), PgSchema(pg);
      (n in after <==> n in goal) && (n in goal ==> after[n] == goal[n])
  {
    hide Norm, Expected, Wanted, Compare, Dropped, AddAll, RetypeAll;
    var targets := ByName(target);
    var m := TargetSchema(target);
    CompareLists(pg, targets);
    DroppedNames(target, Names(pg));
    var base := m - (set c | c in diff.removed :: c.name);
    if c :| c in pg && c.name == n {
      var w := Wanted(c);
      forall x | x in pg && x.name == n
        ensures x == c
      {
        SameColumn(pg, x, c);
      }
      AddAllAt(map[], pg, n, w);
      AddAllAt(base, diff.added, n, w);
      RetypedAs(c, targets);
      RetypeAllAt(AddAll(base, diff.added), diff.typeChanged, n, w);
      assert n in Names(pg);
    } else {
      AddAllAt(map[], pg, n, "");
      AddAllAt(base, diff.added, n, "");
      assert forall x | x in diff.typeChanged :: x.name != n;
      RetypeAllAt(AddAll(base, diff.added), diff.typeChanged, n, "");
      assert n !in Names(pg);
      if n in m {
        var d :| d in target && d.name == n;
        assert d in diff.removed;
      }
    }
  }

  lemma RetypedAs(c: PgColumn, targets: map<string, string>)
    ensures Retype(c, targets).Some? ==>
      Retype(c, targets).value.name == c.name && Norm(Retype(c, targets).value.toType) == Wanted(c)
    ensures c.name in targets && Expected(c).Ok? ==>
      (Retype(c, targets) == None <==> Wanted(c) == Norm(targets[c.name]))
  {
    hide Norm, Expected;
  }

  /** Applying the diff to the registered schema gives the schema Postgres calls for. */
  lemma PatchGivesExpected(pg: seq<PgColumn>, target: seq<TargetColumn>)
    requires Mappable(pg) && DistinctPg(pg)
    ensures Diff(pg, target).Ok? && Patched(TargetSchema(target), Diff(pg, target).value) == PgSchema(pg)
  {
    hide Norm, Expected, Patched, TargetSchema, PgSchema;
    CompareLists(pg, ByName(target));
    var diff := Diff(pg, target).value;
    forall n
      ensures n in Patched(TargetSchema(target), diff) <==> n in PgSchema(pg)
      ensures n in PgSchema(pg) ==> Patched(TargetSchema(target), diff)[n] == PgSchema(pg)[n]
    {
      PatchedAt(pg, target, diff, n);
    }
  }

  /** The diff is empty exactly when the two schemas are equal as maps. */
  lemma InSyncExactly(pg: seq<PgColumn>, target: seq<TargetColumn>)
    requires Mappable(pg) && DistinctPg(pg)
    ensures Diff(pg, target).Ok?
    ensures Diff(pg, target).value.InSync() <==> TargetSchema(target) == PgSchema(pg)
  {
    hide Norm, Expected, Wanted, Compare, Dropped;
    PatchGivesExpected(pg, target);
    var diff := Diff(pg, target).value;
    var m := TargetSchema(target);
    CompareLists(pg, ByName(target));
    DroppedNames(target, Names(pg));
    if diff.InSync() {
      assert m - (set c | c in diff.removed :: c.name) == m;
    } else if m == PgSchema(pg) {
      if diff.added != [] {
        var c := diff.added[0];
        assert c in diff.added;
        ExpectedHas(pg, c);
      } else if diff.typeChanged != [] {
        var x := diff.typeChanged[0];
        assert x in diff.typeChanged;
        var c :| c in pg && Retype(c, ByName(target)) == Some(x);
        RetypedAs(c, ByName(target));
        ExpectedHas(pg, c);
      } else {
        var d := diff.removed[0];
        assert d in diff.removed;
        ExpectedOnly(pg, d.name);
      }
      assert false;
    }
  }

  lemma ExpectedHas(pg: seq<PgColumn>, c: PgColumn)
    requires DistinctPg(pg) && c in pg
    ensures c.name in PgSchema(pg) && PgSchema(pg)[c.name] == Wanted(c)
  {
    hide Wanted, AddAll;
    forall x | x in pg && x.name == c.name
      ensures x == c
    {
      SameColumn(pg, x, c);
    }
    AddAllAt(map[], pg, c.name, Wanted(c));
  }

  lemma ExpectedOnly(pg: seq<PgColumn>, n: string)
    requires n !in Names(pg)
    ensures n !in PgSchema(pg)
  {
    hide Wanted, AddAll;
    AddAllAt(map[], pg, n, "");
  }

  // ---- Reconciling ----

  datatype Report = Report(state: SyncState, reconciled: bool, diff: SchemaDiff)

  /** Catalog columns in order, or the first column that cannot be described. */
  function CatalogColumns(pg: seq<PgColumn>): Result<seq<TargetColumn>, string> {
    if pg == [] then Ok([])
    else
      var c := pg[|pg| - 1];
      match CatalogColumns(pg[..|pg| - 1])
      case Err(e) => Err(e)
      case Ok(init) =>
        match ColumnOf(c.name, c.pgType, |pg| - 1, c.nullable)
        case Err(e) => Err(e)
        case Ok(column) => Ok(init + [TargetColumn(column.name, column.typeText)])
  }

  type Registration = Option<seq<TargetColumn>>

  function ColumnsOf(r: Registration): seq<TargetColumn> {
    if r.Some? then r.value else []
  }

  /** `deletes`: the drop takes effect; `accepts`: the catalog accepts a new table. A table still there answers 409. */
  function Reconcile(pg: seq<PgColumn>, r: Registration, deletes: bool, accepts: bool)
    : (Registration, Result<Report, string>)
  {
    if pg == [] then (r, Err("table not found"))
    else
      match Diff(pg, ColumnsOf(r))
      case Err(e) => (r, Err(e))
      case Ok(diff) =>
        if diff.InSync() then (r, Ok(Report(NextSchemaState(diff), false, diff)))
        else
          match CatalogColumns(pg)
          case Err(e) => (r, Err(e))
          case Ok(columns) =>
            var left := if deletes then None else r;
            if left.Some? then (left, Ok(Report(SyncState.InSync, true, diff)))
            else if accepts then (Some(columns), Ok(Report(SyncState.InSync, true, diff)))
            else (None, Err("re-register failed"))
  }

  class CatalogTable {
    var registration: Registration

    constructor (registration: Registration)
      ensures this.registration == registration
    {
      this.registration := registration;
    }

    method Delete(works: bool)
      modifies this
      ensures registration == if works then None else old(registration)
    {
      if works {
        registration := None;
      }
    }

    /** The status class of the answer: created, conflict, or another error. */
    method Post(columns: seq<TargetColumn>, accepts: bool) returns (status: nat)
      modifies this
      ensures old(registration).Some? ==> status == 409 && registration == old(registration)
      ensures old(registration) == None && accepts ==> status == 200 && registration == Some(columns)
      ensures old(registration) == None && !accepts ==> status == 500 && registration == None
    {
      if registration.Some? {
        return 409;
      }
      if !accepts {
        return 500;
      }
      registration := Some(columns);
      return 200;
    }

    /** Detects drift and re-registers the table when there is any. */
    method ReconcileSchema(pg: seq<PgColumn>, deletes: bool, accepts: bool) returns (report: Result<Report, string>)
      modifies this
      ensures (registration, report) == Reconcile(pg, old(registration), deletes, accepts)
    {
      if pg == [] {
        return Err("table not found");
      }
      var diff := DiffSchema(pg, ColumnsOf(registration));
      if diff.Err? {
        return Err(diff.error);
      }
      if diff.value.InSync() {
        return Ok(Report(NextSchemaState(diff.value), false, diff.value));
      }
      var columns := CatalogColumns(pg);
      if columns.Err? {
        return Err(columns.error);
      }
      Delete(deletes);
      var status := Post(columns.value, accepts);
      if status >= 400 && status != 409 {
        return Err("re-register failed");
      }
      return Ok(Report(SyncState.InSync, true, diff.value));
    }
  }

  // ---- What a registration stores ----

  lemma NormProduced(pgType: string)
    requires MapPgToDelta(pgType).Ok?
    ensures var t := MapPgToDelta(pgType).value.deltaType; Norm(Lower(t)) == t && Norm(t) == t
  {
    hide MapPgToDelta, DeltaText;
    var d := ProducedTree(pgType);
    var t := DeltaText(d);
    NoLowerCase(d);
    DeltaTextEnds(d);
    UpperLower(t);
    StripNothing(t);
    StripNothing(Lower(t));
    assert Upper(t) == t;
  }

  lemma OneColumn(c: PgColumn, position: nat)
    requires Expected(c).Ok?
    ensures var column := ColumnOf(c.name, c.pgType, position, c.nullable);
      column.Ok? && column.value.name == c.name && Norm(column.value.typeText) == Wanted(c)
  {
    hide Norm, MapPgToDelta, UcTypeName, SparkJsonType, Lower;
    ColumnFaithful(c.name, c.pgType, position, c.nullable);
    NormProduced(c.pgType);
  }

  lemma {:induction false} CatalogColumnsAre(pg: seq<PgColumn>)
    requires Mappable(pg)
    ensures CatalogColumns(pg).Ok?
    ensures var columns := CatalogColumns(pg).value;
      |columns| == |pg| && forall i | 0 <= i < |pg| ::
        columns[i].name == pg[i].name && Norm(columns[i].deltaType) == Wanted(pg[i])
    decreases |pg|
  {
    hide Norm, Wanted, Expected, ColumnOf;
    if pg != [] {
      var init, c := pg[..|pg| - 1], pg[|pg| - 1];
      assert c in pg && forall x | x in init :: x in pg;
      CatalogColumnsAre(init);
      OneColumn(c, |pg| - 1);
    }
  }

  lemma {:induction false} RegisteredSchema(pg: seq<PgColumn>, columns: seq<TargetColumn>)
    requires |columns| == |pg|
    requires forall i | 0 <= i < |pg| :: columns[i].name == pg[i].name && Norm(columns[i].deltaType) == Wanted(pg[i])
    ensures TargetSchema(columns) == PgSchema(pg)
    decreases |pg|
  {
    hide Norm, Wanted;
    if pg != [] {
      var n := |pg| - 1;
      RegisteredSchema(pg[..n], columns[..n]);
      var m := TargetSchema(columns[..n]);
      assert TargetSchema(columns) == m[columns[n].name := Norm(columns[n].deltaType)];
    }
  }

  /**
   * A reconcile that reports success leaves the catalog in sync exactly when it already was, nothing was registered,
   * or the drop took effect.
   */
  lemma ReconcileExact(pg: seq<PgColumn>, r: Registration, deletes: bool, accepts: bool)
    requires Mappable(pg) && DistinctPg(pg) && Reconcile(pg, r, deletes, accepts).1.Ok?
    ensures Diff(pg, ColumnsOf(r)).Ok?
    ensures var after := Reconcile(pg, r, deletes, accepts).0;
      Diff(pg, ColumnsOf(after)).Ok? &&
      (Diff(pg, ColumnsOf(after)).value.InSync() <==>
        Diff(pg, ColumnsOf(r)).value.InSync() || r == None || deletes)
  {
    hide Diff, Norm, TargetSchema, PgSchema;
    InSyncExactly(pg, ColumnsOf(r));
    var after := Reconcile(pg, r, deletes, accepts).0;
    InSyncExactly(pg, ColumnsOf(after));
    CatalogColumnsAre(pg);
    RegisteredSchema(pg, CatalogColumns(pg).value);
  }

  /** Reconciling again after the drop took effect finds nothing to do. */
  lemma SecondReconcileIdle(pg: seq<PgColumn>, r: Registration, accepts: bool, deletes2: bool, accepts2: bool)
    requires Mappable(pg) && DistinctPg(pg) && Reconcile(pg, r, true, accepts).1.Ok?
    ensures var after := Reconcile(pg, r, true, accepts).0;
      var again := Reconcile(pg, after, deletes2, accepts2);
      again.0 == after && again.1.Ok? && again.1.value.state == SyncState.InSync && !again.1.value.reconciled
  {
    hide Diff;
    ReconcileExact(pg, r, true, accepts);
  }

  /** The drop of an empty registration fails: success is reported, and the column is still missing. */
  lemma ReportedWhileStale(c: PgColumn)
    requires Expected(c).Ok?
    ensures var (after, report) := Reconcile([c], Some([]), false, true);
      && report.Ok? && report.value.state == SyncState.InSync && report.value.reconciled
      && Diff([c], ColumnsOf(after)).Ok? && !Diff([c], ColumnsOf(after)).value.InSync()
  {
    hide Expected, CatalogColumns;
    assert [c][..0] == [] && ByName([]) == map[];
    assert Compare([c][..0], map[]) == Ok(([], []));
    CatalogColumnsAre([c]);
  }

  lemma {:induction false} CompareFailsExactly(pg: seq<PgColumn>, targets: map<string, string>)
    ensures Compare(pg, targets).Ok? <==> Mappable(pg)
    decreases |pg|
  {
    hide Expected, Norm;
    if pg != [] {
      var init, c := pg[..|pg| - 1], pg[|pg| - 1];
      assert pg == init + [c];
      CompareFailsExactly(init, targets);
      assert c in pg && forall x | x in init :: x in pg;
    }
  }

  /**
   * A reconcile fails exactly when the table is missing, a column has no mapping, or a drifted table could not be
   * registered again; only the last of these changes anything, leaving the table unregistered.
   */
  lemma ReconcileFailsExactly(pg: seq<PgColumn>, r: Registration, deletes: bool, accepts: bool)
    ensures var (after, report) := Reconcile(pg, r, deletes, accepts);
      && (report.Err? <==>
            pg == [] || !Mappable(pg) ||
            (Diff(pg, ColumnsOf(r)).Ok? && !Diff(pg, ColumnsOf(r)).value.InSync() &&
             (deletes || r == None) && !accepts))
      && (report.Err? ==> after == if pg == [] || !Mappable(pg) then r else None)
  {
    hide Expected, Norm, Dropped, CatalogColumns, Compare, Mappable;
    CompareFailsExactly(pg, ByName(ColumnsOf(r)));
    if Mappable(pg) {
      CatalogColumnsAre(pg);
    }
  }

  /** The type a catalog lists counts as the wanted one in any case and with any blanks around it, and no other does. */
  lemma TypeMatchesExactly(c: PgColumn, before: string, listed: string, after: string)
    requires Expected(c).Ok? && Blanks(before) && Blanks(after)
    requires listed != "" && !IsSpace(listed[0]) && !IsSpace(listed[|listed| - 1])
    ensures Retype(c, map[c.name := before + (listed + after)]) == None <==> Upper(listed) == Expected(c).value
  {
    hide MapPgToDelta;
    NormProduced(c.pgType);
    SkipBlanks(before, listed + after);
    StripsBlanks(listed, after);
  }

  function Missing(targets: map<string, string>): PgColumn -> Option<bool> {
    (c: PgColumn) => Some(c.name !in targets)
  }

  function Stale(names: set<string>): TargetColumn -> Option<bool> {
    (c: TargetColumn) => Some(c.name !in names)
  }

  function Retyped(targets: map<string, string>): PgColumn -> Option<bool> {
    (c: PgColumn) => Some(Retype(c, targets).Some?)
  }

  lemma {:induction false} CompareInOrder(pg: seq<PgColumn>, targets: map<string, string>)
    requires Mappable(pg)
    ensures Compare(pg, targets).Ok?
    ensures Compare(pg, targets).value.0 == OfKey(pg, Missing(targets), true)
    ensures var own := OfKey(pg, Retyped(targets), true); var changed := Compare(pg, targets).value.1;
      |changed| == |own| && forall i | 0 <= i < |own| :: Retype(own[i], targets) == Some(changed[i])
    decreases |pg|
  {
    hide Norm, Expected;
    if pg != [] {
      var init, c := pg[..|pg| - 1], pg[|pg| - 1];
      assert pg == init + [c] && c in pg && forall x | x in init :: x in pg;
      CompareInOrder(init, targets);
    }
  }

  lemma {:induction false} DroppedInOrder(target: seq<TargetColumn>, names: set<string>)
    ensures Dropped(target, names) == OfKey(target, Stale(names), true)
    decreases |target|
  {
    if target != [] {
      DroppedInOrder(target[..|target| - 1], names);
    }
  }

  /** The lists of a diff are the columns they are about, each once and in the order of its own side. */
  lemma DiffInOrder(pg: seq<PgColumn>, target: seq<TargetColumn>)
    requires Mappable(pg)
    ensures Diff(pg, target).Ok?
    ensures var diff, targets := Diff(pg, target).value, ByName(target);
      var own := OfKey(pg, Retyped(targets), true);
      && diff.added == OfKey(pg, Missing(targets), true) && diff.removed == OfKey(target, Stale(Names(pg)), true)
      && |diff.typeChanged| == |own|
      && forall i | 0 <= i < |own| :: Retype(own[i], targets) == Some(diff.typeChanged[i])
  {
    hide Norm, Expected, OfKey;
    CompareInOrder(pg, ByName(target));
    DroppedInOrder(target, Names(pg));
  }
}
