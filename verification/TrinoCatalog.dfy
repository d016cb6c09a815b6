/** Keeping Trino's catalog equal to the Delta tables found in the object store. */
module TrinoCatalog {
  import opened Wrappers
  import opened Text

  /** Schemas, their tables, and each table's registered location. */
  type Catalog = map<string, map<string, string>>

  const PREFIX := "proj_"
  const MARKER := "/_delta_log/"
  const BUCKET_URI := "s3://warehouse/"

  // ---- Locations ----

  /** Position of the first `/`, or the length. */
  function FirstSlash(s: string): (n: nat)
    ensures n <= |s| && '/' !in s[..n] && (n < |s| ==> s[n] == '/')
  {
    if s == "" || s[0] == '/' then 0
    else
      var n := FirstSlash(s[1..]) + 1;
      assert s[..n] == [s[0]] + s[1..][..n - 1];
      n
  }

  function ProjectOf(loc: string): string { loc[..FirstSlash(loc)] }

  function Underscored(s: string): string {
    seq(|s|, i requires 0 <= i < |s| => if s[i] == '/' then '_' else s[i])
  }

  /** The later segments joined with `_`; a location of one segment names its table after itself. */
  function TableOf(loc: string): string {
    var n := FirstSlash(loc);
    if n == |loc| then loc else Underscored(loc[n + 1..])
  }

  function SchemaOf(loc: string): string { PREFIX + ProjectOf(loc) }

  function LocationOf(schema: string, table: string): string
    requires StartsWith(schema, PREFIX)
  {
    schema[|PREFIX|..] + "/" + table
  }

  /** The first occurrence of the marker at or after `i`. */
  function FindMarker(key: string, i: nat): (at: Option<nat>)
    ensures at.Some? ==> i <= at.value && OccursAt(key, MARKER, at.value)
    ensures at.Some? ==> forall j: nat | i <= j < at.value :: !OccursAt(key, MARKER, j)
    ensures at == None ==> forall j: nat | i <= j :: !OccursAt(key, MARKER, j)
    decreases |key| - i
  {
    if i + |MARKER| > |key| then None
    else if OccursAt(key, MARKER, i) then Some(i)
    else FindMarker(key, i + 1)
  }

  /** The table an object belongs to: what precedes its first `/_delta_log/`, when that is not empty. */
  function TableDir(key: string): Option<string> {
    match FindMarker(key, 0)
    case Some(i) => if i > 0 then Some(key[..i]) else None
    case None => None
  }

  method DiscoverTables(keys: seq<string>) returns (locs: set<string>)
    ensures forall loc :: loc in locs <==> exists key | key in keys :: TableDir(key) == Some(loc)
  {
    locs := {};
    for i := 0 to |keys|
      invariant forall loc :: loc in locs <==> exists key | key in keys[..i] :: TableDir(key) == Some(loc)
    {
      assert keys[..i + 1] == keys[..i] + [keys[i]];
      var dir := TableDir(keys[i]);
      if dir.Some? {
        locs := locs + {dir.value};
      }
    }
    assert keys[..|keys|] == keys;
  }

  // ---- One cycle ----

  predicate HasTable(cat: Catalog, schema: string, table: string) {
    schema in cat && table in cat[schema]
  }

  /** Creates the schema if needed, and the table unless its name is taken. */
  function RegisterOne(cat: Catalog, loc: string): Catalog {
    var schema, table := SchemaOf(loc), TableOf(loc);
    var tables := if schema in cat then cat[schema] else map[];
    if table in tables then cat else cat[schema := tables[table := BUCKET_URI + loc]]
  }

  function RegisterAll(cat: Catalog, locs: seq<string>): Catalog {
    if locs == [] then cat else RegisterOne(RegisterAll(cat, locs[..|locs| - 1]), locs[|locs| - 1])
  }

  function NewCount(cat: Catalog, locs: seq<string>): nat {
    if locs == [] then 0
    else
      var before, loc := RegisterAll(cat, locs[..|locs| - 1]), locs[|locs| - 1];
      NewCount(cat, locs[..|locs| - 1]) + if HasTable(before, SchemaOf(loc), TableOf(loc)) then 0 else 1
  }

  /** The tables of a project schema whose data still exists. */
  function Kept(tables: map<string, string>, schema: string, current: set<string>): map<string, string>
    requires StartsWith(schema, PREFIX)
  {
    map t | t in tables && LocationOf(schema, t) in current :: tables[t]
  }

  predicate Survives(cat: Catalog, schema: string, current: set<string>)
    requires schema in cat
  {
    !StartsWith(schema, PREFIX) || Kept(cat[schema], schema, current) != map[]
  }

  function Reconciled(cat: Catalog, current: set<string>): Catalog {
    map s | s in cat && Survives(cat, s, current) ::
      if StartsWith(s, PREFIX) then Kept(cat[s], s, current) else cat[s]
  }

  /** Every registered table of a project schema still has its data. */
  predicate NothingStale(cat: Catalog, current: set<string>) {
    forall s, t | s in cat && t in cat[s] && StartsWith(s, PREFIX) :: LocationOf(s, t) in current
  }

  function AsSet(locs: seq<string>): set<string> { set loc | loc in locs }

  function Cycle(cat: Catalog, locs: seq<string>): Catalog {
    Reconciled(RegisterAll(cat, locs), AsSet(locs))
  }

  /** Every registered table, as schema and name. */
  function Names(cat: Catalog): set<(string, string)> {
    set s, t | s in cat && t in cat[s] :: (s, t)
  }

  lemma NamesDrop(cat: Catalog, schema: string, table: string)
    requires HasTable(cat, schema, table)
    ensures |Names(cat[schema := cat[schema] - {table}])| == |Names(cat)| - 1
  {
    assert Names(cat[schema := cat[schema] - {table}]) == Names(cat) - {(schema, table)};
  }

  lemma NamesSchema(cat: Catalog, schema: string)
    requires schema in cat && cat[schema] == map[]
    ensures Names(cat - {schema}) == Names(cat)
  {
  }

  class Trino {
    var catalog: Catalog

    constructor (catalog: Catalog)
      ensures this.catalog == catalog
    {
      this.catalog := catalog;
    }

    /** A name that is already registered stays as it is. */
    method Register(schema: string, table: string, location: string) returns (added: bool)
      requires schema in catalog
      modifies this
      ensures added == !HasTable(old(catalog), schema, table)
      ensures catalog == if added then old(catalog)[schema := old(catalog)[schema][table := location]] else old(catalog)
    {
      added := table !in catalog[schema];
      if added {
        catalog := catalog[schema := catalog[schema][table := location]];
      }
    }

    method RegisterDiscovered(locs: seq<string>) returns (added: nat)
      modifies this
      ensures catalog == RegisterAll(old(catalog), locs) && added == NewCount(old(catalog), locs)
    {
      hide SchemaOf, TableOf;
      added := 0;
      for i := 0 to |locs|
        invariant catalog == RegisterAll(old(catalog), locs[..i]) && added == NewCount(old(catalog), locs[..i])
      {
        assert locs[..i + 1][..i] == locs[..i];
        var schema, table := SchemaOf(locs[i]), TableOf(locs[i]);
        if schema !in catalog {
          catalog := catalog[schema := map[]];
        }
        var isNew := Register(schema, table, BUCKET_URI + locs[i]);
        added := added + if isNew then 1 else 0;
      }
      assert locs[..|locs|] == locs;
    }

    /** Unregisters the stale tables of one project schema, and drops the schema when none is left. */
    method ReconcileSchema(schema: string, current: set<string>) returns (removed: nat)
      requires schema in catalog && StartsWith(schema, PREFIX)
      modifies this
      ensures var kept := Kept(old(catalog)[schema], schema, current);
        catalog == if kept == map[] then old(catalog) - {schema} else old(catalog)[schema := kept]
      ensures removed == |Names(old(catalog))| - |Names(catalog)|
      ensures removed == 0 <==> forall t | t in old(catalog)[schema] :: LocationOf(schema, t) in current
    {
      hide StartsWith, LocationOf, Names;
      removed := 0;
      var todo := catalog[schema].Keys;
      while todo != {}
        invariant todo <= old(catalog)[schema].Keys
        invariant schema in catalog && catalog == old(catalog)[schema := catalog[schema]]
        invariant catalog[schema] ==
          map t | t in old(catalog)[schema] && (t in todo || LocationOf(schema, t) in current) ::
            old(catalog)[schema][t]
        invariant removed == 0 <==>
          forall t | t in old(catalog)[schema] && t !in todo :: LocationOf(schema, t) in current
        invariant removed == |Names(old(catalog))| - |Names(catalog)|
        decreases |todo|
      {
        var table :| table in todo;
        todo := todo - {table};
        if LocationOf(schema, table) !in current {
          NamesDrop(catalog, schema, table);
          catalog := catalog[schema := catalog[schema] - {table}];
          removed := removed + 1;
        }
      }
      assert catalog[schema] == Kept(old(catalog)[schema], schema, current);
      if catalog[schema] == map[] {
        NamesSchema(catalog, schema);
        catalog := catalog - {schema};
      }
    }

    method ReconcileAll(current: set<string>) returns (removed: nat)
      modifies this
      ensures catalog == Reconciled(old(catalog), current)
      ensures removed == |Names(old(catalog))| - |Names(catalog)|
      ensures removed == 0 <==> NothingStale(old(catalog), current)
    {
      hide StartsWith, LocationOf, Kept, Names;
      removed := 0;
      var todo := set s | s in catalog && StartsWith(s, PREFIX);
      while todo != {}
        invariant forall s | s in todo :: s in old(catalog) && StartsWith(s, PREFIX)
        invariant forall s | s in todo :: s in catalog && catalog[s] == old(catalog)[s]
        invariant forall s :: s in catalog <==> s in old(catalog) && (s in todo || Survives(old(catalog), s, current))
        invariant forall s | s in catalog && s !in todo ::
            catalog[s] == if StartsWith(s, PREFIX) then Kept(old(catalog)[s], s, current) else old(catalog)[s]
        invariant removed == 0 <==>
          forall s, t | s in old(catalog) && t in old(catalog)[s] && StartsWith(s, PREFIX) && s !in todo ::
            LocationOf(s, t) in current
        invariant removed == |Names(old(catalog))| - |Names(catalog)|
        decreases |todo|
      {
        var schema :| schema in todo;
        todo := todo - {schema};
        var gone := ReconcileSchema(schema, current);
        removed := removed + gone;
      }
    }

    /** Register everything discovered, then drop whatever is stale. */
    method RunCycle(locs: seq<string>) returns (added: nat, removed: nat)
      modifies this
      ensures catalog == Cycle(old(catalog), locs)
      ensures added == NewCount(old(catalog), locs)
      ensures |Names(catalog)| == |Names(old(catalog))| + added - removed
      ensures removed == 0 <==> NothingStale(RegisterAll(old(catalog), locs), AsSet(locs))
    {
      hide Names;
      NewCounted(catalog, locs);
      added := RegisterDiscovered(locs);
      removed := ReconcileAll(set loc | loc in locs);
    }
  }

  /** The count of a registration is the number of names it adds. */
  lemma {:induction false} NewCounted(cat: Catalog, locs: seq<string>)
    ensures |Names(RegisterAll(cat, locs))| == |Names(cat)| + NewCount(cat, locs)
    decreases |locs|
  {
    hide SchemaOf, TableOf, Names;
    if locs != [] {
      NewCounted(cat, locs[..|locs| - 1]);
      OneNew(RegisterAll(cat, locs[..|locs| - 1]), locs[|locs| - 1]);
    }
  }

  lemma OneNew(cat: Catalog, loc: string)
    ensures |Names(RegisterOne(cat, loc))| ==
      |Names(cat)| + if HasTable(cat, SchemaOf(loc), TableOf(loc)) then 0 else 1
  {
    hide SchemaOf, TableOf, Names;
    if !HasTable(cat, SchemaOf(loc), TableOf(loc)) {
      NamesAdd(cat, SchemaOf(loc), TableOf(loc), BUCKET_URI + loc);
    }
  }

  lemma NamesAdd(cat: Catalog, schema: string, table: string, location: string)
    requires !HasTable(cat, schema, table)
    ensures var tables := if schema in cat then cat[schema] else map[];
      |Names(cat[schema := tables[table := location]])| == |Names(cat)| + 1
  {
    var tables := if schema in cat then cat[schema] else map[];
    var after := cat[schema := tables[table := location]];
    hide Names, HasTable;
    forall s, t
      ensures (s, t) in Names(after) <==> (s, t) in Names(cat) + {(schema, table)}
    {
      AddedHas(cat, schema, table, location, s, t);
      InNames(after, s, t);
      InNames(cat, s, t);
    }
    SameNames(Names(after), Names(cat) + {(schema, table)});
    InNames(cat, schema, table);
  }

  lemma SameNames(a: set<(string, string)>, b: set<(string, string)>)
    requires forall s, t :: (s, t) in a <==> (s, t) in b
    ensures a == b
  {
    forall name: (string, string)
      ensures name in a <==> name in b
    {
      var (s, t) := name;
    }
  }

  lemma AddedHas(cat: Catalog, schema: string, table: string, location: string, s: string, t: string)
    ensures var tables := if schema in cat then cat[schema] else map[];
      HasTable(cat[schema := tables[table := location]], s, t) <==> HasTable(cat, s, t) || (s == schema && t == table)
  {
  }

  lemma InNames(cat: Catalog, s: string, t: string)
    ensures (s, t) in Names(cat) <==> HasTable(cat, s, t)
  {
  }

  // ---- What a cycle leaves ----

  lemma SchemaPrefixed(loc: string)
    ensures StartsWith(SchemaOf(loc), PREFIX) && SchemaOf(loc)[|PREFIX|..] == ProjectOf(loc)
  {
  }

  /** The name a location is registered under. */
  predicate NamedBy(loc: string, schema: string, table: string) {
    SchemaOf(loc) == schema && TableOf(loc) == table
  }

  lemma {:induction false} RegisterAllAt(cat: Catalog, locs: seq<string>, s: string, t: string)
    ensures HasTable(RegisterAll(cat, locs), s, t) <==>
      HasTable(cat, s, t) || exists loc | loc in locs :: NamedBy(loc, s, t)
    ensures HasTable(cat, s, t) ==> RegisterAll(cat, locs)[s][t] == cat[s][t]
    ensures HasTable(RegisterAll(cat, locs), s, t) && !HasTable(cat, s, t) ==>
      exists loc | loc in locs && NamedBy(loc, s, t) :: RegisterAll(cat, locs)[s][t] == BUCKET_URI + loc
    decreases |locs|
  {
    hide SchemaOf, TableOf;
    if locs != [] {
      var init, last := locs[..|locs| - 1], locs[|locs| - 1];
      RegisterAllAt(cat, init, s, t);
      assert forall x :: x in locs <==> x in init || x == last by {
        assert locs == init + [last];
      }
      assert HasTable(RegisterAll(cat, locs), s, t) <==> HasTable(RegisterAll(cat, init), s, t) || NamedBy(last, s, t);
    }
  }

  lemma {:induction false} RegisterAllForeign(cat: Catalog, locs: seq<string>, s: string)
    requires !StartsWith(s, PREFIX)
    ensures s in RegisterAll(cat, locs) <==> s in cat
    ensures s in cat ==> RegisterAll(cat, locs)[s] == cat[s]
    decreases |locs|
  {
    hide SchemaOf, TableOf, StartsWith;
    if locs != [] {
      RegisterAllForeign(cat, locs[..|locs| - 1], s);
      SchemaPrefixed(locs[|locs| - 1]);
    }
  }

  /** A location of exactly two segments. */
  predicate TwoSegments(loc: string) {
    var n := FirstSlash(loc);
    n < |loc| && '/' !in loc[n + 1..]
  }

  lemma TwoSegmentName(loc: string, schema: string, table: string)
    requires TwoSegments(loc) && StartsWith(schema, PREFIX)
    ensures NamedBy(loc, schema, table) <==> LocationOf(schema, table) == loc
  {
    var n := FirstSlash(loc);
    var project, rest := loc[..n], loc[n + 1..];
    assert Underscored(rest) == rest;
    assert loc == project + "/" + rest;
    SchemaPrefixed(loc);
    var p := schema[|PREFIX|..];
    assert schema == PREFIX + p by { assert schema == schema[..|PREFIX|] + p; }
    if LocationOf(schema, table) == loc {
      assert loc == p + "/" + table;
      CutAtSlash(project, rest, p, table);
    }
  }

  lemma CutAtSlash(a: string, b: string, p: string, t: string)
    requires a + "/" + b == p + "/" + t && '/' !in a && '/' !in b
    ensures a == p && b == t
  {
    var whole := a + "/" + b;
    assert whole[|p|] == '/';
    assert forall i | 0 <= i < |a| :: whole[i] == a[i];
    assert forall i | |a| < i < |whole| :: whole[i] == b[i - |a| - 1];
    assert |p| == |a|;
    assert whole[..|a|] == a && whole[|a| + 1..] == b;
    assert whole[..|p|] == p && whole[|p| + 1..] == t;
  }

  lemma ReconciledAt(cat: Catalog, current: set<string>, s: string, t: string)
    requires StartsWith(s, PREFIX)
    ensures HasTable(Reconciled(cat, current), s, t) <==> HasTable(cat, s, t) && LocationOf(s, t) in current
    ensures HasTable(Reconciled(cat, current), s, t) ==> Reconciled(cat, current)[s][t] == cat[s][t]
    ensures s in Reconciled(cat, current) ==> Reconciled(cat, current)[s] != map[]
  {
    hide StartsWith, LocationOf;
    if s in cat && t in cat[s] && LocationOf(s, t) in current {
      assert t in Kept(cat[s], s, current);
    }
  }

  /**
   * After one cycle a project schema holds exactly the discovered tables and is never empty; a name that was already
   * registered keeps its location, a new one gets the discovered location; other schemas are untouched.
   */
  lemma CycleExact(cat: Catalog, locs: seq<string>, s: string, t: string)
    requires forall loc | loc in locs :: TwoSegments(loc)
    ensures StartsWith(s, PREFIX) ==>
      && (HasTable(Cycle(cat, locs), s, t) <==> LocationOf(s, t) in locs)
      && (HasTable(Cycle(cat, locs), s, t) ==>
            Cycle(cat, locs)[s][t] == if HasTable(cat, s, t) then cat[s][t] else BUCKET_URI + LocationOf(s, t))
      && (s in Cycle(cat, locs) ==> Cycle(cat, locs)[s] != map[])
    ensures !StartsWith(s, PREFIX) ==>
      (s in Cycle(cat, locs) <==> s in cat) && (s in cat ==> Cycle(cat, locs)[s] == cat[s])
  {
    hide StartsWith, LocationOf, RegisterAll, NamedBy, TwoSegments, Kept;
    if StartsWith(s, PREFIX) {
      RegisterAllAt(cat, locs, s, t);
      ReconciledAt(RegisterAll(cat, locs), AsSet(locs), s, t);
      forall loc | loc in locs
        ensures NamedBy(loc, s, t) <==> LocationOf(s, t) == loc
      {
        TwoSegmentName(loc, s, t);
      }
    } else {
      RegisterAllForeign(cat, locs, s);
    }
  }

  // ---- When a second cycle has nothing to do ----

  /** Where the registered name of a location points back to. */
  function NameBack(loc: string): string { ProjectOf(loc) + "/" + TableOf(loc) }

  lemma {:induction false} NewCountZero(cat: Catalog, locs: seq<string>)
    ensures NewCount(cat, locs) == 0 <==> forall loc | loc in locs :: HasTable(cat, SchemaOf(loc), TableOf(loc))
    ensures NewCount(cat, locs) == 0 ==> RegisterAll(cat, locs) == cat
    decreases |locs|
  {
    hide SchemaOf, TableOf;
    if locs != [] {
      var init, loc := locs[..|locs| - 1], locs[|locs| - 1];
      assert locs == init + [loc];
      NewCountZero(cat, init);
      if NewCount(cat, init) == 0 {
        assert forall x | x in init :: HasTable(cat, SchemaOf(x), TableOf(x));
      }
    }
  }

  lemma CycleHolds(cat: Catalog, locs: seq<string>, loc: string)
    requires loc in locs
    ensures HasTable(Cycle(cat, locs), SchemaOf(loc), TableOf(loc)) <==> NameBack(loc) in locs
  {
    hide SchemaOf, TableOf, RegisterAll, StartsWith, Reconciled;
    SchemaPrefixed(loc);
    RegisterAllAt(cat, locs, SchemaOf(loc), TableOf(loc));
    ReconciledAt(RegisterAll(cat, locs), AsSet(locs), SchemaOf(loc), TableOf(loc));
    assert NamedBy(loc, SchemaOf(loc), TableOf(loc));
  }

  /** The second cycle registers nothing exactly when every registered name points back to a discovered location. */
  lemma SecondCycleExact(cat: Catalog, locs: seq<string>)
    ensures NewCount(Cycle(cat, locs), locs) == 0 <==> forall loc | loc in locs :: NameBack(loc) in locs
  {
    hide SchemaOf, TableOf, Cycle, NameBack, HasTable;
    NewCountZero(Cycle(cat, locs), locs);
    forall loc | loc in locs
      ensures HasTable(Cycle(cat, locs), SchemaOf(loc), TableOf(loc)) <==> NameBack(loc) in locs
    {
      CycleHolds(cat, locs, loc);
    }
  }

  /** With two-segment locations the second cycle adds nothing, removes nothing and changes nothing. */
  lemma SecondCycleIdle(cat: Catalog, locs: seq<string>)
    requires forall loc | loc in locs :: TwoSegments(loc)
    ensures var once := Cycle(cat, locs);
      && NewCount(once, locs) == 0 && NothingStale(RegisterAll(once, locs), AsSet(locs))
      && Cycle(once, locs) == once
  {
    hide SchemaOf, TableOf, HasTable, StartsWith, Kept, NewCount, LocationOf, TwoSegments;
    var once := Cycle(cat, locs);
    forall loc | loc in locs
      ensures NameBack(loc) in locs
    {
      TwoSegmentBack(loc);
    }
    SecondCycleExact(cat, locs);
    NewCountZero(once, locs);
    forall s, t | s in once && t in once[s] && StartsWith(s, PREFIX)
      ensures LocationOf(s, t) in AsSet(locs)
    {
      CycleExact(cat, locs, s, t);
      InCatalog(once, s, t);
    }
    assert NothingStale(once, AsSet(locs));
    forall s | s in once
      ensures Survives(once, s, AsSet(locs)) && (StartsWith(s, PREFIX) ==> Kept(once[s], s, AsSet(locs)) == once[s])
    {
      CycleExact(cat, locs, s, "");
      if StartsWith(s, PREFIX) {
        KeepsAll(once[s], s, AsSet(locs));
      }
    }
    assert Reconciled(once, AsSet(locs)) == once;
  }

  lemma InCatalog(cat: Catalog, s: string, t: string)
    requires s in cat && t in cat[s]
    ensures HasTable(cat, s, t)
  {
  }

  lemma KeepsAll(tables: map<string, string>, schema: string, current: set<string>)
    requires StartsWith(schema, PREFIX) && forall t | t in tables :: LocationOf(schema, t) in current
    ensures Kept(tables, schema, current) == tables
  {
  }

  lemma TwoSegmentBack(loc: string)
    requires TwoSegments(loc)
    ensures NameBack(loc) == loc
  {
    var n := FirstSlash(loc);
    assert Underscored(loc[n + 1..]) == loc[n + 1..];
    assert loc == loc[..n] + "/" + loc[n + 1..];
  }

  /** A location three segments deep is registered again by the second cycle. */
  lemma DeepLocationFlaps()
    ensures NewCount(Cycle(map[], ["a/b/c"]), ["a/b/c"]) != 0
  {
    hide NewCount, Cycle;
    var loc := "a/b/c";
    SecondCycleExact(map[], [loc]);
    assert loc[1..] == "/b/c" && FirstSlash(loc[1..]) == 0;
    assert FirstSlash(loc) == 1 && loc[1 + 1..] == "b/c";
    assert NameBack(loc)[3] == '_' by {
      assert Underscored("b/c") == "b_c";
    }
    assert loc in [loc] && loc[3] == '/';
  }
}
