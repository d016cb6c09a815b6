/** Convergence, replay and ledger safety of reverse sync. */
module ReverseSyncSafety {
  import opened Wrappers
  import opened Transform
  import opened Postgres
  import opened Sequences
  import opened Conflict
  import opened ReverseSync

  // ---- One key at a time ----

  /** The effect of one row on its own key. */
  function NextKey(ks: KeyState, r: Row, cfg: Config): KeyState
    requires cfg.schema.pk in r
  {
    match Decide(ks, r, cfg)
    case Ok(d) =>
      if Writes(d) then KeyState(Some(Merged(ks.row, Project(r, cfg.schema), cfg.schema)), VersionOf(r, cfg)) else ks
    case Err(_) => ks
  }

  lemma SyncRowAt(db: Db, r: Row, cfg: Config, k: Cell)
    requires cfg.schema.Valid() && SyncRow(db, r, cfg).Ok?
    ensures cfg.schema.pk in r
    ensures KeyOf(SyncRow(db, r, cfg).value.0, k) ==
      if r[cfg.schema.pk] == k then NextKey(KeyOf(db, k), r, cfg) else KeyOf(db, k)
  {
    hide Decide, Merged, VersionOf, Values;
    var own := r[cfg.schema.pk];
    if Writes(Decide(KeyOf(db, own), r, cfg).value) {
      AppliedValues(KeyOf(db, own), r, cfg);
    }
  }

  function RowKey(pk: string): Row -> Option<Cell> {
    (r: Row) => if pk in r then Some(r[pk]) else None
  }

  function FoldKey(ks: KeyState, rows: seq<Row>, cfg: Config): KeyState
    requires forall r | r in rows :: cfg.schema.pk in r
  {
    if rows == [] then ks else NextKey(FoldKey(ks, rows[..|rows| - 1], cfg), rows[|rows| - 1], cfg)
  }

  /** Rows of distinct keys do not interact: a committed batch acts on each key separately. */
  lemma {:induction false} BatchPointwise(db: Db, rows: seq<Row>, cfg: Config, k: Cell)
    requires cfg.schema.Valid() && SyncBatch(db, rows, cfg).Ok?
    ensures forall r | r in OfKey(rows, RowKey(cfg.schema.pk), k) :: cfg.schema.pk in r
    ensures KeyOf(SyncBatch(db, rows, cfg).value.0, k) ==
      FoldKey(KeyOf(db, k), OfKey(rows, RowKey(cfg.schema.pk), k), cfg)
    decreases |rows|
  {
    hide NextKey, SyncRow;
    OfKeyIn(rows, RowKey(cfg.schema.pk), k);
    if rows != [] {
      var init, r := rows[..|rows| - 1], rows[|rows| - 1];
      BatchPointwise(db, init, cfg, k);
      SyncRowAt(SyncBatch(db, init, cfg).value.0, r, cfg, k);
      var own := OfKey(init, RowKey(cfg.schema.pk), k);
      if r[cfg.schema.pk] == k {
        assert (own + [r])[..|own|] == own;
      } else {
        assert own + [] == own;
      }
    }
  }

  lemma SameDb(a: Db, b: Db)
    ensures a == b <==> forall k :: KeyOf(a, k) == KeyOf(b, k)
  {
    if forall k :: KeyOf(a, k) == KeyOf(b, k) {
      forall k
        ensures k in a.rows <==> k in b.rows
        ensures k in a.rows ==> a.rows[k] == b.rows[k]
        ensures k in a.ledger <==> k in b.ledger
        ensures k in a.ledger ==> a.ledger[k] == b.ledger[k]
      {
        assert KeyOf(a, k) == KeyOf(b, k);
      }
    }
  }

  // ---- Last write wins ----

  predicate Versioned(r: Row, cfg: Config) {
    cfg.schema.pk in r && VersionOf(r, cfg).Some?
  }

  /** Whether a row of version `v` may overwrite the key: newer than the ledger and not losing to Postgres. */
  predicate Beats(ks: KeyState, v: int, cfg: Config) {
    && (ks.last.Some? ==> v > ks.last.value)
    && (ks.row.Some? ==>
          var pg := VersionOf(ks.row.value, cfg);
          pg.Some? && (v > pg.value || (v == pg.value && cfg.truth != "postgres")))
  }

  lemma NextKeyLww(ks: KeyState, r: Row, cfg: Config)
    requires cfg.policy == LastWriteWins && Versioned(r, cfg)
    ensures Decide(ks, r, cfg).Ok?
    ensures NextKey(ks, r, cfg) ==
      if Beats(ks, VersionOf(r, cfg).value, cfg)
      then KeyState(Some(Merged(ks.row, Project(r, cfg.schema), cfg.schema)), VersionOf(r, cfg)) else ks
  {
    hide VersionOf, Merged;
  }

  /** Under last-write-wins, versioned rows never make a call fail. */
  lemma {:induction false} LwwCommits(db: Db, rows: seq<Row>, cfg: Config)
    requires cfg.schema.Valid() && cfg.policy == LastWriteWins && forall r | r in rows :: Versioned(r, cfg)
    ensures SyncBatch(db, rows, cfg).Ok?
    decreases |rows|
  {
    hide Versioned, Decide, VersionOf;
    if rows != [] {
      var r := rows[|rows| - 1];
      LwwCommits(db, rows[..|rows| - 1], cfg);
      assert Versioned(r, cfg);
      var mid := SyncBatch(db, rows[..|rows| - 1], cfg).value.0;
      assert cfg.schema.pk in r by { VersionedKeyed(r, cfg); }
      NextKeyLww(KeyOf(mid, r[cfg.schema.pk]), r, cfg);
    }
  }

  lemma VersionedKeyed(r: Row, cfg: Config)
    requires Versioned(r, cfg)
    ensures cfg.schema.pk in r
  {
  }

  // ---- Replaying a committed batch ----

  /** Seeing `r` again would write nothing. */
  predicate Settled(ks: KeyState, r: Row, cfg: Config) {
    Versioned(r, cfg) && Decide(ks, r, cfg).Ok? && !Writes(Decide(ks, r, cfg).value)
  }

  lemma MergedVersion(row: Option<Row>, r: Row, cfg: Config, k: Cell)
    requires cfg.schema.Valid() && Stored(row, cfg.schema, k) && cfg.schema.pk in r && r[cfg.schema.pk] == k
    ensures Stored(Some(Merged(row, Project(r, cfg.schema), cfg.schema)), cfg.schema, k)
    ensures cfg.versionCol.Some? && cfg.versionCol.value in cfg.schema.columns && VersionOf(r, cfg).Some? ==>
      VersionOf(Merged(row, Project(r, cfg.schema), cfg.schema), cfg) == VersionOf(r, cfg)
  {
  }

  lemma VersionColumn(row: Row, cfg: Config)
    requires row.Keys == cfg.schema.columns && VersionOf(row, cfg).Some?
    ensures cfg.versionCol.Some? && cfg.versionCol.value in cfg.schema.columns
  {
  }

  /** Under any policy, deciding a row settles it, and settled rows stay settled. */
  lemma SettledStays(ks: KeyState, r: Row, next: Row, cfg: Config, k: Cell)
    requires cfg.schema.Valid() && Stored(ks.row, cfg.schema, k)
    requires Versioned(next, cfg) && next[cfg.schema.pk] == k && Decide(ks, next, cfg).Ok?
    ensures Settled(NextKey(ks, next, cfg), next, cfg)
    ensures Settled(ks, r, cfg) && r[cfg.schema.pk] == k ==> Settled(NextKey(ks, next, cfg), r, cfg)
  {
    hide VersionOf, Merged, Project;
    MergedVersion(ks.row, next, cfg, k);
    if ks.row.Some? && VersionOf(ks.row.value, cfg).Some? {
      VersionColumn(ks.row.value, cfg);
    }
  }

  lemma SyncRowKeepsWellFormed(db: Db, r: Row, cfg: Config)
    requires cfg.schema.Valid() && WellFormed(db.rows, cfg.schema) && SyncRow(db, r, cfg).Ok?
    ensures WellFormed(SyncRow(db, r, cfg).value.0.rows, cfg.schema)
    ensures Decide(KeyOf(db, r[cfg.schema.pk]), r, cfg).Ok?
  {
    hide Decide, Upsert, WellFormed, VersionOf, Values;
    var ks := KeyOf(db, r[cfg.schema.pk]);
    if Writes(Decide(ks, r, cfg).value) {
      AppliedValues(ks, r, cfg);
      UpsertKeepsWellFormed(db.rows, Project(r, cfg.schema), cfg.schema);
    }
  }

  lemma KeyRow(db: Db, k: Cell)
    ensures KeyOf(db, k).row == Lookup(db.rows, k)
  {
  }

  /** A committed batch settles all its rows. */
  lemma {:induction false} BatchSettles(db: Db, rows: seq<Row>, cfg: Config)
    requires cfg.schema.Valid() && WellFormed(db.rows, cfg.schema)
    requires (forall r | r in rows :: Versioned(r, cfg)) && SyncBatch(db, rows, cfg).Ok?
    ensures var after := SyncBatch(db, rows, cfg).value.0;
      && WellFormed(after.rows, cfg.schema)
      && forall r | r in rows :: cfg.schema.pk in r && Settled(KeyOf(after, r[cfg.schema.pk]), r, cfg)
    decreases |rows|
  {
    hide SyncRow, KeyOf, Versioned, Settled, WellFormed, Decide, NextKey;
    if rows != [] {
      var init, last := rows[..|rows| - 1], rows[|rows| - 1];
      assert last in rows && forall r | r in init :: r in rows;
      BatchSettles(db, init, cfg);
      var mid, after := SyncBatch(db, init, cfg).value.0, SyncBatch(db, rows, cfg).value.0;
      SyncRowKeepsWellFormed(mid, last, cfg);
      forall r | r in rows
        ensures cfg.schema.pk in r && Settled(KeyOf(after, r[cfg.schema.pk]), r, cfg)
      {
        VersionedKeyed(r, cfg);
        var k := r[cfg.schema.pk];
        SyncRowAt(mid, last, cfg, k);
        assert KeyOf(mid, k).row == Lookup(mid.rows, k) by { KeyRow(mid, k); }
        LookupStored(mid.rows, cfg.schema, k);
        assert r == last || r in init;
        if last[cfg.schema.pk] == k {
          SettledStays(KeyOf(mid, k), r, last, cfg, k);
        }
      }
    }
  }

  lemma {:induction false} SettledBatch(db: Db, rows: seq<Row>, cfg: Config)
    requires cfg.schema.Valid()
    requires forall r | r in rows :: cfg.schema.pk in r && Settled(KeyOf(db, r[cfg.schema.pk]), r, cfg)
    ensures SyncBatch(db, rows, cfg).Ok? && SyncBatch(db, rows, cfg).value.0 == db
    decreases |rows|
  {
    hide KeyOf, Decide;
    if rows != [] {
      SettledBatch(db, rows[..|rows| - 1], cfg);
      assert rows[|rows| - 1] in rows;
    }
  }

  /** Under any policy, running a call again changes neither the table nor the ledger. */
  lemma ReplayIdempotent(db: Db, rows: seq<Row>, cfg: Config)
    requires cfg.schema.Valid() && WellFormed(db.rows, cfg.schema)
    requires forall r | r in rows :: Versioned(r, cfg)
    ensures Call(Call(db, rows, cfg), rows, cfg) == Call(db, rows, cfg)
  {
    hide SyncBatch, Versioned, Settled, KeyOf;
    if SyncBatch(db, rows, cfg).Ok? {
      BatchSettles(db, rows, cfg);
      SettledBatch(SyncBatch(db, rows, cfg).value.0, rows, cfg);
    }
  }

  /** A row without a version empties its key's ledger entry; replaying the call then writes an older row it skipped. */
  lemma UnversionedReplay(db: Db, stale: Row, bare: Row, cfg: Config, column: string)
    requires cfg.schema.Valid() && cfg.policy == SourceOfTruth && cfg.truth == "lakehouse"
    requires WellFormed(db.rows, cfg.schema) && Versioned(stale, cfg)
    requires var k := stale[cfg.schema.pk];
      k in db.rows && k in db.ledger && VersionOf(stale, cfg).value <= db.ledger[k]
    requires cfg.schema.pk in bare && bare[cfg.schema.pk] == stale[cfg.schema.pk] && VersionOf(bare, cfg) == None
    requires column in cfg.schema.columns && column in stale && column !in bare
    ensures var k, once := stale[cfg.schema.pk], Call(db, [stale, bare], cfg);
      var twice := Call(once, [stale, bare], cfg);
      && k in once.rows && column in once.rows[k] && once.rows[k][column] == db.rows[k][column]
      && k in twice.rows && column in twice.rows[k] && twice.rows[k][column] == stale[column]
  {
    hide VersionOf, Merged;
    var once := SyncRow(db, bare, cfg).value.0;
    TwoRows(db, stale, bare, cfg);
    MergedColumn(Lookup(db.rows, stale[cfg.schema.pk]), bare, cfg, column);
    assert once.ledger == db.ledger - {stale[cfg.schema.pk]};
    var mid := SyncRow(once, stale, cfg).value.0;
    MergedColumn(Lookup(once.rows, stale[cfg.schema.pk]), stale, cfg, column);
    TwoRows(once, stale, bare, cfg);
    MergedColumn(Lookup(mid.rows, stale[cfg.schema.pk]), bare, cfg, column);
  }

  lemma TwoRows(db: Db, a: Row, b: Row, cfg: Config)
    requires cfg.schema.Valid() && SyncRow(db, a, cfg).Ok? && SyncRow(SyncRow(db, a, cfg).value.0, b, cfg).Ok?
    ensures Call(db, [a, b], cfg) == SyncRow(SyncRow(db, a, cfg).value.0, b, cfg).value.0
  {
    hide SyncRow;
    assert [a, b][..1] == [a] && [a][..0] == [];
    assert SyncBatch(db, [], cfg) == Ok((db, []));
    assert SyncBatch(db, [a], cfg).Ok? && SyncBatch(db, [a], cfg).value.0 == SyncRow(db, a, cfg).value.0;
  }

  lemma MergedColumn(row: Option<Row>, r: Row, cfg: Config, column: string)
    requires row.Some? && column in row.value && column in cfg.schema.columns
    ensures var m := Merged(row, Project(r, cfg.schema), cfg.schema);
      column in m && (column !in r || column == cfg.schema.pk ==> m[column] == row.value[column])
      && (column in r && column != cfg.schema.pk ==> m[column] == r[column])
  {
  }

  // ---- Convergence ----

  /** A versioned row that carries every column of the table, the version among them. */
  predicate Full(r: Row, cfg: Config) {
    && Versioned(r, cfg)
    && cfg.schema.columns <= r.Keys
    && cfg.versionCol.Some? && cfg.versionCol.value in cfg.schema.columns
  }

  /** Equal key and lake version mean equal content. */
  ghost predicate Consistent(rows: seq<Row>, cfg: Config) {
    forall a, b | a in rows && b in rows && Full(a, cfg) && Full(b, cfg) ::
      a[cfg.schema.pk] == b[cfg.schema.pk] && VersionOf(a, cfg) == VersionOf(b, cfg) ==>
        Project(a, cfg.schema) == Project(b, cfg.schema)
  }

  lemma FullReplaces(row: Option<Row>, r: Row, cfg: Config, k: Cell)
    requires cfg.schema.Valid() && Stored(row, cfg.schema, k) && Full(r, cfg) && r[cfg.schema.pk] == k
    ensures Merged(row, Project(r, cfg.schema), cfg.schema) == Project(r, cfg.schema)
    ensures VersionOf(Project(r, cfg.schema), cfg) == VersionOf(r, cfg)
    ensures Stored(Some(Project(r, cfg.schema)), cfg.schema, k)
  {
  }

  /** `best` is the row of greatest version among `rows`. */
  predicate IsNewest(best: Row, rows: seq<Row>, cfg: Config) {
    best in rows && forall r | r in rows :: Full(r, cfg) && Full(best, cfg) ==>
      VersionOf(r, cfg).value <= VersionOf(best, cfg).value
  }

  /** What the key must become: the newest incoming row if it beats the starting state, else that state. */
  function Target(ks: KeyState, best: Row, cfg: Config): KeyState
    requires Full(best, cfg)
  {
    if Beats(ks, VersionOf(best, cfg).value, cfg)
    then KeyState(Some(Project(best, cfg.schema)), VersionOf(best, cfg)) else ks
  }

  lemma TargetStep(ks: KeyState, best: Row, r: Row, cfg: Config, k: Cell)
    requires cfg.schema.Valid() && cfg.policy == LastWriteWins && Stored(ks.row, cfg.schema, k)
    requires Full(best, cfg) && Full(r, cfg) && best[cfg.schema.pk] == k && r[cfg.schema.pk] == k
    ensures NextKey(Target(ks, best, cfg), r, cfg) ==
      Target(ks, if VersionOf(r, cfg).value > VersionOf(best, cfg).value then r else best, cfg)
  {
    hide VersionOf, Merged, NextKey, Project;
    NextKeyLww(Target(ks, best, cfg), r, cfg);
    FullReplaces(ks.row, best, cfg, k);
    FullReplaces(ks.row, r, cfg, k);
    FullReplaces(Some(Project(best, cfg.schema)), r, cfg, k);
  }

  lemma TargetFirst(ks: KeyState, r: Row, cfg: Config, k: Cell)
    requires cfg.schema.Valid() && cfg.policy == LastWriteWins && Stored(ks.row, cfg.schema, k)
    requires Full(r, cfg) && r[cfg.schema.pk] == k
    ensures NextKey(ks, r, cfg) == Target(ks, r, cfg)
  {
    hide VersionOf, Merged, NextKey, Project;
    NextKeyLww(ks, r, cfg);
    FullReplaces(ks.row, r, cfg, k);
  }

  /** Folding any sequence of full rows of one key reaches the target of its newest row. */
  lemma {:induction false} FoldReachesTarget(ks: KeyState, rows: seq<Row>, cfg: Config, k: Cell) returns (best: Row)
    requires cfg.schema.Valid() && cfg.policy == LastWriteWins && Stored(ks.row, cfg.schema, k) && rows != []
    requires forall r | r in rows :: cfg.schema.pk in r && Full(r, cfg) && r[cfg.schema.pk] == k
    ensures IsNewest(best, rows, cfg) && Full(best, cfg)
    ensures FoldKey(ks, rows, cfg) == Target(ks, best, cfg)
    decreases |rows|
  {
    hide NextKey, VersionOf, Target;
    var init, r := rows[..|rows| - 1], rows[|rows| - 1];
    assert r in rows;
    if init == [] {
      TargetFirst(ks, r, cfg, k);
      assert FoldKey(ks, init, cfg) == ks;
      best := r;
      assert rows == [r];
    } else {
      var prior := FoldReachesTarget(ks, init, cfg, k);
      TargetStep(ks, prior, r, cfg, k);
      best := if VersionOf(r, cfg).value > VersionOf(prior, cfg).value then r else prior;
      assert forall x | x in rows :: x == r || x in init;
    }
  }

  /** Two newest rows of the same set leave the same state. */
  lemma SameTarget(ks: KeyState, a: Row, b: Row, xs: seq<Row>, ys: seq<Row>, all: seq<Row>, cfg: Config, k: Cell)
    requires IsNewest(a, xs, cfg) && IsNewest(b, ys, cfg) && Full(a, cfg) && Full(b, cfg)
    requires forall r :: r in xs <==> r in ys
    requires a in all && b in all && a[cfg.schema.pk] == k && b[cfg.schema.pk] == k && Consistent(all, cfg)
    ensures Target(ks, a, cfg) == Target(ks, b, cfg)
  {
    hide VersionOf, Project;
  }

  lemma {:induction false} FoldKeyConcat(ks: KeyState, a: seq<Row>, b: seq<Row>, cfg: Config)
    requires forall r | r in a + b :: cfg.schema.pk in r
    ensures (forall r | r in a :: cfg.schema.pk in r) && forall r | r in b :: cfg.schema.pk in r
    ensures FoldKey(ks, a + b, cfg) == FoldKey(FoldKey(ks, a, cfg), b, cfg)
    decreases |b|
  {
    hide NextKey;
    assert forall r | r in a :: r in a + b;
    assert forall r | r in b :: r in a + b;
    if b == [] {
      assert a + b == a;
    } else {
      assert (a + b)[..|a + b| - 1] == a + b[..|b| - 1];
      FoldKeyConcat(ks, a, b[..|b| - 1], cfg);
    }
  }

  /** Splitting rows into calls does not matter. */
  lemma {:induction false} CallsPointwise(db: Db, batches: seq<seq<Row>>, cfg: Config, k: Cell)
    requires cfg.schema.Valid() && cfg.policy == LastWriteWins && forall r | r in Flatten(batches) :: Versioned(r, cfg)
    ensures forall r | r in OfKey(Flatten(batches), RowKey(cfg.schema.pk), k) :: cfg.schema.pk in r
    ensures KeyOf(Calls(db, batches, cfg), k) ==
      FoldKey(KeyOf(db, k), OfKey(Flatten(batches), RowKey(cfg.schema.pk), k), cfg)
    decreases |batches|
  {
    hide FoldKey, OfKey, Versioned, SyncBatch;
    var pk := cfg.schema.pk;
    OfKeyIn(Flatten(batches), RowKey(pk), k);
    if batches == [] {
      assert FoldKey(KeyOf(db, k), OfKey([], RowKey(pk), k), cfg) == KeyOf(db, k) by {
        NothingFolds(KeyOf(db, k), pk, k, cfg);
      }
    } else {
      var init, last := batches[..|batches| - 1], batches[|batches| - 1];
      assert forall r | r in Flatten(init) :: r in Flatten(batches);
      assert forall r | r in last :: r in Flatten(batches);
      CallsPointwise(db, init, cfg, k);
      LwwCommits(Calls(db, init, cfg), last, cfg);
      BatchPointwise(Calls(db, init, cfg), last, cfg, k);
      OfKeyConcat(Flatten(init), last, RowKey(pk), k);
      FoldKeyConcat(KeyOf(db, k), OfKey(Flatten(init), RowKey(pk), k), OfKey(last, RowKey(pk), k), cfg);
    }
  }

  lemma NothingFolds(ks: KeyState, pk: string, k: Cell, cfg: Config)
    ensures OfKey([], RowKey(pk), k) == [] && FoldKey(ks, [], cfg) == ks
  {
  }

  lemma CallsConvergeAt(db: Db, xs: seq<seq<Row>>, ys: seq<seq<Row>>, cfg: Config, k: Cell)
    requires cfg.schema.Valid() && cfg.policy == LastWriteWins && WellFormed(db.rows, cfg.schema)
    requires forall r | r in Flatten(xs) :: Full(r, cfg)
    requires forall r :: r in Flatten(xs) <==> r in Flatten(ys)
    requires Consistent(Flatten(xs), cfg)
    ensures KeyOf(Calls(db, xs, cfg), k) == KeyOf(Calls(db, ys, cfg), k)
  {
    hide FoldKey, OfKey, SyncBatch, Flatten, Calls, Consistent, VersionOf, Target, IsNewest;
    var pk := cfg.schema.pk;
    CallsPointwise(db, xs, cfg, k);
    CallsPointwise(db, ys, cfg, k);
    var a, b := OfKey(Flatten(xs), RowKey(pk), k), OfKey(Flatten(ys), RowKey(pk), k);
    OfKeyIn(Flatten(xs), RowKey(pk), k);
    OfKeyIn(Flatten(ys), RowKey(pk), k);
    SameEmptiness(a, b);
    if a != [] {
      var p := FoldReachesTarget(KeyOf(db, k), a, cfg, k);
      var q := FoldReachesTarget(KeyOf(db, k), b, cfg, k);
      assert p in a && q in b by { NewestIn(p, a, cfg); NewestIn(q, b, cfg); }
      SameTarget(KeyOf(db, k), p, q, a, b, Flatten(xs), cfg, k);
    }
  }

  lemma SameEmptiness(a: seq<Row>, b: seq<Row>)
    requires forall r :: r in a <==> r in b
    ensures a == [] <==> b == []
  {
    assert a != [] ==> a[0] in a;
    assert b != [] ==> b[0] in b;
  }

  lemma NewestIn(best: Row, rows: seq<Row>, cfg: Config)
    requires IsNewest(best, rows, cfg)
    ensures best in rows
  {
  }

  /** Any order, duplication and split into calls of the same rows ends in the same table and ledger. */
  lemma CallsConverge(db: Db, xs: seq<seq<Row>>, ys: seq<seq<Row>>, cfg: Config)
    requires cfg.schema.Valid() && cfg.policy == LastWriteWins && WellFormed(db.rows, cfg.schema)
    requires forall r | r in Flatten(xs) :: Full(r, cfg)
    requires forall r :: r in Flatten(xs) <==> r in Flatten(ys)
    requires Consistent(Flatten(xs), cfg)
    ensures Calls(db, xs, cfg) == Calls(db, ys, cfg)
  {
    hide Flatten, Calls, Consistent, Full;
    forall k
      ensures KeyOf(Calls(db, xs, cfg), k) == KeyOf(Calls(db, ys, cfg), k)
    {
      CallsConvergeAt(db, xs, ys, cfg, k);
    }
    SameDb(Calls(db, xs, cfg), Calls(db, ys, cfg));
  }

  /** The row a key ends with is the newest incoming one if it beats the start, and the starting row otherwise. */
  lemma CallsPickNewest(db: Db, xs: seq<seq<Row>>, cfg: Config, best: Row)
    requires cfg.schema.Valid() && cfg.policy == LastWriteWins && WellFormed(db.rows, cfg.schema)
    requires forall r | r in Flatten(xs) :: Full(r, cfg)
    requires Consistent(Flatten(xs), cfg)
    requires best in Flatten(xs) && Full(best, cfg)
    requires forall r | r in Flatten(xs) && Full(r, cfg) && r[cfg.schema.pk] == best[cfg.schema.pk] ::
      VersionOf(r, cfg).value <= VersionOf(best, cfg).value
    ensures KeyOf(Calls(db, xs, cfg), best[cfg.schema.pk]) == Target(KeyOf(db, best[cfg.schema.pk]), best, cfg)
  {
    hide FoldKey, OfKey, Flatten, Calls, VersionOf, Target, Consistent;
    var k := best[cfg.schema.pk];
    CallsPointwise(db, xs, cfg, k);
    var own := OfKey(Flatten(xs), RowKey(cfg.schema.pk), k);
    OfKeyIn(Flatten(xs), RowKey(cfg.schema.pk), k);
    assert best in own;
    var p := FoldReachesTarget(KeyOf(db, k), own, cfg, k);
    assert IsNewest(best, own, cfg);
    SameTarget(KeyOf(db, k), p, best, own, own, Flatten(xs), cfg, k);
  }

  // ---- The ledger, under any policy ----

  /** A call of the API, or somebody else rewriting the table. */
  datatype RunEvent = Sync(rows: seq<Row>, cfg: Config) | Other(table: Rows)

  datatype Applied = Applied(key: Cell, version: int)

  /** The state, and every (key, version) committed so far. */
  datatype Traced = Traced(db: Db, applied: seq<Applied>)

  /** What a committed batch applied: the rows its actions wrote, in order. */
  function AppliedBy(rows: seq<Row>, actions: seq<Action>, cfg: Config): seq<Applied>
    requires |rows| == |actions| && forall r | r in rows :: Versioned(r, cfg)
  {
    if rows == [] then []
    else
      var r, action := rows[|rows| - 1], actions[|rows| - 1];
      assert r in rows && Versioned(r, cfg);
      AppliedBy(rows[..|rows| - 1], actions[..|rows| - 1], cfg) +
      (if action == Apply || action == ApplyMerge then [Applied(r[cfg.schema.pk], VersionOf(r, cfg).value)] else [])
  }

  lemma {:induction false} ActionsMatch(db: Db, rows: seq<Row>, cfg: Config)
    requires cfg.schema.Valid() && SyncBatch(db, rows, cfg).Ok?
    ensures |SyncBatch(db, rows, cfg).value.1| == |rows|
    decreases |rows|
  {
    hide SyncRow;
    if rows != [] {
      ActionsMatch(db, rows[..|rows| - 1], cfg);
    }
  }

  ghost function Next(t: Traced, ev: RunEvent): Traced
    requires ev.Sync? ==> ev.cfg.schema.Valid() && forall r | r in ev.rows :: Versioned(r, ev.cfg)
  {
    match ev
    case Other(table) => t.(db := t.db.(rows := table))
    case Sync(rows, cfg) =>
      if SyncBatch(t.db, rows, cfg).Err? then t
      else
        var (after, actions) := SyncBatch(t.db, rows, cfg).value;
        ActionsMatch(t.db, rows, cfg);
        Traced(after, t.applied + AppliedBy(rows, actions, cfg))
  }

  /** Each key's applied versions rise strictly, and the ledger holds the last of them. */
  ghost predicate LedgerSafe(t: Traced) {
    && (forall i | 0 <= i < |t.applied| ::
          t.applied[i].key in t.db.ledger && t.applied[i].version <= t.db.ledger[t.applied[i].key])
    && (forall i, j | 0 <= i < j < |t.applied| && t.applied[i].key == t.applied[j].key ::
          t.applied[i].version < t.applied[j].version)
  }

  /** Whatever the policy decides, a written version is above the ledger, and becomes the ledger. */
  lemma RowRaisesLedger(db: Db, r: Row, cfg: Config)
    requires cfg.schema.Valid() && Versioned(r, cfg) && SyncRow(db, r, cfg).Ok?
    ensures var (after, action) := SyncRow(db, r, cfg).value;
      var k, v := r[cfg.schema.pk], VersionOf(r, cfg).value;
      if action == Apply || action == ApplyMerge then
        (k in db.ledger ==> db.ledger[k] < v) && after.ledger == db.ledger[k := v]
      else after == db
  {
    hide VersionOf, Upsert, Values, Resolve;
  }

  /** After a row is applied, a version is a duplicate exactly when that row carried a version at least as high. */
  lemma DuplicateExactly(db: Db, r: Row, next: Row, cfg: Config)
    requires cfg.schema.Valid() && Versioned(next, cfg) && SyncRow(db, r, cfg).Ok?
    requires Writes(Decision(SyncRow(db, r, cfg).value.1, None))
    requires next[cfg.schema.pk] == r[cfg.schema.pk] && SyncRow(SyncRow(db, r, cfg).value.0, next, cfg).Ok?
    ensures SyncRow(SyncRow(db, r, cfg).value.0, next, cfg).value.1 == SkipDuplicate <==>
      VersionOf(r, cfg).Some? && VersionOf(next, cfg).value <= VersionOf(r, cfg).value
  {
    hide VersionOf, Upsert, Values, Resolve;
  }

  lemma AppendRaises(t: Traced, k: Cell, v: int, db: Db)
    requires LedgerSafe(t) && (k in t.db.ledger ==> t.db.ledger[k] < v) && db.ledger == t.db.ledger[k := v]
    ensures LedgerSafe(Traced(db, t.applied + [Applied(k, v)]))
  {
  }

  lemma {:induction false} BatchLedgerSafe(t: Traced, rows: seq<Row>, cfg: Config)
    requires cfg.schema.Valid() && LedgerSafe(t) && SyncBatch(t.db, rows, cfg).Ok?
    requires forall r | r in rows :: Versioned(r, cfg)
    ensures LedgerSafe(Next(t, Sync(rows, cfg)))
    decreases |rows|
  {
    hide SyncRow, LedgerSafe, VersionOf;
    ActionsMatch(t.db, rows, cfg);
    if rows == [] {
      assert t.applied + [] == t.applied;
    } else {
      var init, r := rows[..|rows| - 1], rows[|rows| - 1];
      assert Versioned(r, cfg) && forall x | x in init :: x in rows;
      ActionsMatch(t.db, init, cfg);
      BatchLedgerSafe(t, init, cfg);
      var mid := Next(t, Sync(init, cfg));
      var (after, actions) := SyncBatch(t.db, rows, cfg).value;
      assert actions[..|init|] == SyncBatch(t.db, init, cfg).value.1;
      RowRaisesLedger(mid.db, r, cfg);
      var k, v := r[cfg.schema.pk], VersionOf(r, cfg).value;
      if actions[|init|] == Apply || actions[|init|] == ApplyMerge {
        AppendRaises(mid, k, v, after);
        assert t.applied + AppliedBy(rows, actions, cfg) == mid.applied + [Applied(k, v)];
      } else {
        assert t.applied + AppliedBy(rows, actions, cfg) == mid.applied;
      }
    }
  }

  ghost predicate AllVersioned(evs: seq<RunEvent>) {
    forall ev | ev in evs && ev.Sync? :: ev.cfg.schema.Valid() && forall r | r in ev.rows :: Versioned(r, ev.cfg)
  }

  ghost function RunAll(t: Traced, evs: seq<RunEvent>): Traced
    requires AllVersioned(evs)
  {
    if evs == [] then t
    else
      var last := evs[|evs| - 1];
      assert last in evs;
      Next(RunAll(t, evs[..|evs| - 1]), last)
  }

  /** Over every run, with anybody rewriting the table in between, no (key, version) is applied twice. */
  lemma {:induction false} LedgerSafety(db: Db, evs: seq<RunEvent>)
    requires AllVersioned(evs)
    ensures LedgerSafe(RunAll(Traced(db, []), evs))
    decreases |evs|
  {
    hide SyncBatch, AppliedBy, Versioned;
    if evs != [] {
      var last := evs[|evs| - 1];
      assert last in evs;
      LedgerSafety(db, evs[..|evs| - 1]);
      var t := RunAll(Traced(db, []), evs[..|evs| - 1]);
      if last.Sync? && SyncBatch(t.db, last.rows, last.cfg).Ok? {
        BatchLedgerSafe(t, last.rows, last.cfg);
      }
    }
  }
}
