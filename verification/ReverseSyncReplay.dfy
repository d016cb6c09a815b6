/** When a call of reverse sync can be repeated without effect, with or without versions on its rows. */
module ReverseSyncReplay {
  import opened Wrappers
  import opened Sequences
  import opened Transform
  import opened Postgres
  import opened Conflict
  import opened ReverseSync
  import opened ReverseSyncSafety

  // ---- Rows of one key ----

  /** Seeing `r` writes nothing. */
  predicate Quiet(ks: KeyState, r: Row, cfg: Config) {
    cfg.schema.pk in r && Decide(ks, r, cfg).Ok? && !Writes(Decide(ks, r, cfg).value)
  }

  ghost predicate OwnRows(rows: seq<Row>, cfg: Config, k: Cell) {
    forall r | r in rows :: cfg.schema.pk in r && r[cfg.schema.pk] == k
  }

  /** The position of the first row without a version. */
  function FirstBare(rows: seq<Row>, cfg: Config): (j: nat)
    ensures j <= |rows| && (j < |rows| ==> VersionOf(rows[j], cfg) == None)
    ensures forall i | 0 <= i < j :: VersionOf(rows[i], cfg).Some?
  {
    if rows == [] || VersionOf(rows[0], cfg) == None then 0 else 1 + FirstBare(rows[1..], cfg)
  }

  // ---- Policies under which a row of the table is never overwritten ----

  /** Postgres keeps what it has, or the call fails. */
  predicate KeepsExisting(cfg: Config) {
    cfg.policy == Refuse || cfg.policy == Merge || (cfg.policy == SourceOfTruth && cfg.truth != "lakehouse")
  }

  lemma ExistingKept(ks: KeyState, r: Row, cfg: Config)
    requires KeepsExisting(cfg) && ks.row.Some? && cfg.schema.pk in r
    ensures Decide(ks, r, cfg).Ok? ==> !Writes(Decide(ks, r, cfg).value)
    ensures NextKey(ks, r, cfg) == ks
  {
    hide VersionOf;
  }

  lemma {:induction false} FoldKept(ks: KeyState, rows: seq<Row>, cfg: Config)
    requires KeepsExisting(cfg) && forall r | r in rows :: cfg.schema.pk in r
    ensures ks.row.Some? ==> FoldKey(ks, rows, cfg) == ks
    ensures FoldKey(ks, rows, cfg).row == None ==> FoldKey(ks, rows, cfg) == ks
    decreases |rows|
  {
    hide VersionOf, Decide, Merged;
    if rows != [] {
      var init, r := rows[..|rows| - 1], rows[|rows| - 1];
      FoldKept(ks, init, cfg);
      if FoldKey(ks, init, cfg).row.Some? {
        ExistingKept(FoldKey(ks, init, cfg), r, cfg);
      }
    }
  }

  /** Repeating a call changes nothing, whatever versions its rows carry. */
  lemma KeepingReplays(db: Db, rows: seq<Row>, cfg: Config)
    requires cfg.schema.Valid() && KeepsExisting(cfg)
    ensures Call(Call(db, rows, cfg), rows, cfg) == Call(db, rows, cfg)
  {
    hide SyncBatch, FoldKey, OfKey, KeyOf, KeepsExisting;
    var once := Call(db, rows, cfg);
    if SyncBatch(db, rows, cfg).Ok? && SyncBatch(once, rows, cfg).Ok? {
      var twice := Call(once, rows, cfg);
      forall k
        ensures KeyOf(twice, k) == KeyOf(once, k)
      {
        var own := OfKey(rows, RowKey(cfg.schema.pk), k);
        BatchPointwise(db, rows, cfg, k);
        BatchPointwise(once, rows, cfg, k);
        FoldKept(KeyOf(db, k), own, cfg);
        FoldKept(KeyOf(once, k), own, cfg);
      }
      SameDb(twice, once);
    }
  }

  // ---- Last write wins ----

  /** The ledger of a key rises strictly from `a` to `b`, or nothing happened. */
  predicate Rises(a: KeyState, b: KeyState) {
    b == a || (b.last.Some? && (a.last.Some? ==> b.last.value > a.last.value))
  }

  /** Once the row exists, only versioned rows are written, and each write raises the ledger. */
  lemma PresentStep(ks: KeyState, r: Row, cfg: Config, k: Cell)
    requires cfg.schema.Valid() && cfg.policy == LastWriteWins && ks.row.Some? && Stored(ks.row, cfg.schema, k)
    requires cfg.schema.pk in r && r[cfg.schema.pk] == k
    ensures var next := NextKey(ks, r, cfg);
      && next.row.Some? && Stored(next.row, cfg.schema, k) && Rises(ks, next) && (next == ks <==> Quiet(ks, r, cfg))
      && Quiet(next, r, cfg)
    ensures VersionOf(r, cfg) == None ==> Quiet(ks, r, cfg)
  {
    hide VersionOf, Merged, Project;
    if VersionOf(r, cfg).Some? {
      NextKeyLww(ks, r, cfg);
      MergedVersion(ks.row, r, cfg, k);
      SettledStays(ks, r, r, cfg, k);
    }
  }

  lemma QuietStays(ks: KeyState, r: Row, next: Row, cfg: Config, k: Cell)
    requires cfg.schema.Valid() && cfg.policy == LastWriteWins && ks.row.Some? && Stored(ks.row, cfg.schema, k)
    requires cfg.schema.pk in next && next[cfg.schema.pk] == k && Quiet(ks, r, cfg) && r[cfg.schema.pk] == k
    ensures Quiet(NextKey(ks, next, cfg), r, cfg)
  {
    hide VersionOf, Merged, Project, Decide;
    PresentStep(ks, next, cfg, k);
    if VersionOf(r, cfg) == None {
      PresentStep(NextKey(ks, next, cfg), r, cfg, k);
    } else if VersionOf(next, cfg).Some? {
      NextKeyLww(ks, next, cfg);
      SettledStays(ks, r, next, cfg, k);
    }
  }

  /** Folding over an existing row: the state only rises, and every row folded is quiet at the end. */
  lemma {:induction false} Present(ks: KeyState, rows: seq<Row>, cfg: Config, k: Cell)
    requires cfg.schema.Valid() && cfg.policy == LastWriteWins && ks.row.Some? && Stored(ks.row, cfg.schema, k)
    requires OwnRows(rows, cfg, k)
    ensures var end := FoldKey(ks, rows, cfg);
      && end.row.Some? && Stored(end.row, cfg.schema, k) && Rises(ks, end)
      && (end == ks <==> forall r | r in rows :: Quiet(ks, r, cfg))
      && (forall r | r in rows :: Quiet(end, r, cfg))
      && (forall r | cfg.schema.pk in r && r[cfg.schema.pk] == k && Quiet(ks, r, cfg) :: Quiet(end, r, cfg))
    decreases |rows|
  {
    hide Decide, NextKey, Quiet, Stored;
    if rows != [] {
      var init, next := rows[..|rows| - 1], rows[|rows| - 1];
      assert rows == init + [next];
      Present(ks, init, cfg, k);
      var mid, end := FoldKey(ks, init, cfg), FoldKey(ks, rows, cfg);
      PresentStep(mid, next, cfg, k);
      forall r | (r in init || Quiet(ks, r, cfg)) && Quiet(mid, r, cfg) && cfg.schema.pk in r && r[cfg.schema.pk] == k
        ensures Quiet(end, r, cfg)
      {
        QuietStays(mid, r, next, cfg, k);
      }
    }
  }

  /** A version that would be written over the key, and that no versioned row of `rows` reaches. */
  predicate Outlasts(ks: KeyState, v: int, rows: seq<Row>, cfg: Config) {
    Beats(ks, v, cfg) && forall r | r in rows && VersionOf(r, cfg).Some? :: VersionOf(r, cfg).value < v
  }

  lemma BeatsAfter(ks: KeyState, r: Row, v: int, cfg: Config, k: Cell)
    requires cfg.schema.Valid() && cfg.policy == LastWriteWins && ks.row.Some? && Stored(ks.row, cfg.schema, k)
    requires cfg.schema.pk in r && r[cfg.schema.pk] == k
    ensures Beats(NextKey(ks, r, cfg), v, cfg) <==>
      Beats(ks, v, cfg) && (VersionOf(r, cfg).Some? ==> VersionOf(r, cfg).value < v)
  {
    hide VersionOf, Merged, Project, NextKey;
    if VersionOf(r, cfg).Some? {
      NextKeyLww(ks, r, cfg);
      MergedVersion(ks.row, r, cfg, k);
      if VersionOf(ks.row.value, cfg).Some? {
        VersionColumn(ks.row.value, cfg);
      }
    } else {
      PresentStep(ks, r, cfg, k);
    }
  }

  lemma {:induction false} BeatsFold(ks: KeyState, rows: seq<Row>, v: int, cfg: Config, k: Cell)
    requires cfg.schema.Valid() && cfg.policy == LastWriteWins && ks.row.Some? && Stored(ks.row, cfg.schema, k)
    requires OwnRows(rows, cfg, k)
    ensures Beats(FoldKey(ks, rows, cfg), v, cfg) <==> Outlasts(ks, v, rows, cfg)
    decreases |rows|
  {
    hide NextKey, Beats, Stored, VersionOf;
    if rows != [] {
      var init, r := rows[..|rows| - 1], rows[|rows| - 1];
      assert rows == init + [r];
      BeatsFold(ks, init, v, cfg, k);
      Present(ks, init, cfg, k);
      BeatsAfter(FoldKey(ks, init, cfg), r, v, cfg, k);
    }
  }

  /** The state a row leaves when it is inserted without a version. */
  function Inserted(r: Row, cfg: Config): KeyState {
    KeyState(Some(Merged(None, Project(r, cfg.schema), cfg.schema)), None)
  }

  /** The ledger holds a version at least as high as every one of these rows. */
  predicate AllOld(last: Option<int>, rows: seq<Row>, cfg: Config) {
    forall r | r in rows ::
      last.Some? && VersionOf(r, cfg).Some? && VersionOf(r, cfg).value <= last.value
  }

  /** After `bare` is inserted and `rest` is seen, `r` would be written. */
  predicate Revives(r: Row, bare: Row, rest: seq<Row>, cfg: Config) {
    VersionOf(r, cfg).Some? && Outlasts(Inserted(bare, cfg), VersionOf(r, cfg).value, rest, cfg)
  }

  /**
   * A row without a version is inserted where the table has none, after rows the ledger has seen; the ledger entry is
   * gone, and one of those rows is newer than the inserted row's default version and than all rows after it.
   */
  predicate LwwForgets(ks: KeyState, own: seq<Row>, cfg: Config) {
    var j := FirstBare(own, cfg);
    && ks.row == None && j < |own| && AllOld(ks.last, own[..j], cfg)
    && exists r | r in own[..j] :: Revives(r, own[j], own[j + 1..], cfg)
  }

  lemma {:induction false} OldKept(ks: KeyState, rows: seq<Row>, cfg: Config)
    requires cfg.policy == LastWriteWins && AllOld(ks.last, rows, cfg) && forall r | r in rows :: cfg.schema.pk in r
    ensures FoldKey(ks, rows, cfg) == ks
    decreases |rows|
  {
    hide VersionOf, Merged;
    if rows != [] {
      var r := rows[|rows| - 1];
      assert r in rows;
      OldKept(ks, rows[..|rows| - 1], cfg);
    }
  }

  lemma InsertsBare(ks: KeyState, r: Row, cfg: Config, k: Cell)
    requires cfg.schema.Valid() && cfg.policy == LastWriteWins && ks.row == None
    requires cfg.schema.pk in r && r[cfg.schema.pk] == k && VersionOf(r, cfg) == None
    ensures NextKey(ks, r, cfg) == Inserted(r, cfg) && Stored(Inserted(r, cfg).row, cfg.schema, k)
  {
    hide VersionOf;
  }

  lemma OwnPart(a: seq<Row>, b: seq<Row>, cfg: Config, k: Cell)
    requires OwnRows(a + b, cfg, k)
    ensures OwnRows(a, cfg, k) && OwnRows(b, cfg, k)
  {
    assert forall r | r in a :: r in a + b;
    assert forall r | r in b :: r in a + b;
  }

  lemma BeforeVersioned(own: seq<Row>, cfg: Config, k: Cell)
    requires OwnRows(own, cfg, k)
    ensures var before := own[..FirstBare(own, cfg)];
      OwnRows(before, cfg, k) && forall r | r in before :: Versioned(r, cfg)
  {
    hide VersionOf;
  }

  lemma QuietVersioned(ks: KeyState, r: Row, cfg: Config)
    requires cfg.policy == LastWriteWins && Versioned(r, cfg)
    ensures Quiet(ks, r, cfg) <==> !Beats(ks, VersionOf(r, cfg).value, cfg)
  {
    hide VersionOf;
  }

  lemma FoldOne(ks: KeyState, r: Row, cfg: Config)
    requires cfg.schema.pk in r
    ensures FoldKey(ks, [r], cfg) == NextKey(ks, r, cfg)
  {
    hide NextKey;
    assert [r][..0] == [] && FoldKey(ks, [], cfg) == ks;
  }

  /** After rows the ledger has seen, a key without a row starts again from what the row without a version inserts. */
  lemma FoldsFromBare(ks: KeyState, before: seq<Row>, bare: Row, rest: seq<Row>, cfg: Config, k: Cell)
    requires cfg.schema.Valid() && cfg.policy == LastWriteWins && ks.row == None
    requires OwnRows(before + ([bare] + rest), cfg, k)
    requires AllOld(ks.last, before, cfg) && VersionOf(bare, cfg) == None
    ensures FoldKey(ks, before + ([bare] + rest), cfg) == FoldKey(Inserted(bare, cfg), rest, cfg)
    ensures Stored(Inserted(bare, cfg).row, cfg.schema, k)
  {
    hide Decide, NextKey, Stored, VersionOf, Merged, FoldKey, Inserted;
    assert bare in before + ([bare] + rest);
    OwnPart(before, [bare] + rest, cfg, k);
    OwnPart([bare], rest, cfg, k);
    OldKept(ks, before, cfg);
    FoldKeyConcat(ks, before, [bare] + rest, cfg);
    FoldKeyConcat(ks, [bare], rest, cfg);
    InsertsBare(ks, bare, cfg, k);
    FoldOne(ks, bare, cfg);
  }

  /** What is quiet once everything is folded: the row without a version, what follows it, and what it outlives. */
  lemma QuietAtEnd(before: seq<Row>, bare: Row, rest: seq<Row>, cfg: Config, k: Cell)
    requires cfg.schema.Valid() && cfg.policy == LastWriteWins
    requires OwnRows(before, cfg, k) && OwnRows([bare], cfg, k) && OwnRows(rest, cfg, k)
    requires VersionOf(bare, cfg) == None && (forall r | r in before :: Versioned(r, cfg))
    requires Stored(Inserted(bare, cfg).row, cfg.schema, k)
    ensures var end := FoldKey(Inserted(bare, cfg), rest, cfg);
      && end.row.Some? && Stored(end.row, cfg.schema, k) && Quiet(end, bare, cfg)
      && (forall r | r in rest :: Quiet(end, r, cfg))
      && forall r | r in before :: Quiet(end, r, cfg) <==> !Revives(r, bare, rest, cfg)
  {
    hide Decide, NextKey, Quiet, Stored, VersionOf, Beats, Merged, FoldKey, Outlasts;
    var end := FoldKey(Inserted(bare, cfg), rest, cfg);
    Present(Inserted(bare, cfg), rest, cfg, k);
    assert bare in [bare];
    PresentStep(end, bare, cfg, k);
    forall r | r in before
      ensures Quiet(end, r, cfg) <==> !Revives(r, bare, rest, cfg)
    {
      QuietVersioned(end, r, cfg);
      BeatsFold(Inserted(bare, cfg), rest, VersionOf(r, cfg).value, cfg, k);
    }
  }

  /** The ledger has seen what comes before the first row without a version: the replay is quiet unless it forgets. */
  lemma ForgottenReplay(ks: KeyState, own: seq<Row>, j: nat, cfg: Config, k: Cell)
    requires cfg.schema.Valid() && cfg.policy == LastWriteWins && ks.row == None && OwnRows(own, cfg, k)
    requires j == FirstBare(own, cfg) && j < |own| && AllOld(ks.last, own[..j], cfg)
    ensures var end := FoldKey(ks, own, cfg); FoldKey(end, own, cfg) == end <==> !LwwForgets(ks, own, cfg)
  {
    hide Decide, NextKey, Quiet, Stored, VersionOf, Beats, Merged, FoldKey;
    hide Revives, Inserted, Versioned, FirstBare, AllOld;
    var before, bare, rest := own[..j], own[j], own[j + 1..];
    assert own == before + ([bare] + rest);
    OwnPart(before, [bare] + rest, cfg, k);
    OwnPart([bare], rest, cfg, k);
    BeforeVersioned(own, cfg, k);
    FoldsFromBare(ks, before, bare, rest, cfg, k);
    QuietAtEnd(before, bare, rest, cfg, k);
    Present(FoldKey(ks, own, cfg), own, cfg, k);
    assert forall r | r in own :: r in before || r == bare || r in rest;
    assert forall r | r in before :: r in own;
  }

  lemma {:induction false} QuietFold(ks: KeyState, rows: seq<Row>, cfg: Config)
    requires forall r | r in rows :: cfg.schema.pk in r && Quiet(ks, r, cfg)
    ensures FoldKey(ks, rows, cfg) == ks
    decreases |rows|
  {
    hide Decide;
    if rows != [] {
      QuietFold(ks, rows[..|rows| - 1], cfg);
      assert rows[|rows| - 1] in rows;
    }
  }

  lemma VersionedStep(ks: KeyState, r: Row, next: Row, cfg: Config, k: Cell)
    requires cfg.schema.Valid() && cfg.policy == LastWriteWins && Stored(ks.row, cfg.schema, k)
    requires Versioned(next, cfg) && next[cfg.schema.pk] == k
    ensures var after := NextKey(ks, next, cfg);
      && Stored(after.row, cfg.schema, k) && Quiet(after, next, cfg)
      && (Versioned(r, cfg) && r[cfg.schema.pk] == k && Quiet(ks, r, cfg) ==> Quiet(after, r, cfg))
      && (after.row == None ==> after == ks && AllOld(ks.last, [next], cfg))
  {
    hide VersionOf, Merged, Project;
    NextKeyLww(ks, next, cfg);
    SettledStays(ks, r, next, cfg, k);
    MergedVersion(ks.row, next, cfg, k);
  }

  /** Versioned rows are all quiet once folded; if the row is still absent, the ledger had seen them. */
  lemma {:induction false} VersionedQuiet(ks: KeyState, rows: seq<Row>, cfg: Config, k: Cell)
    requires cfg.schema.Valid() && cfg.policy == LastWriteWins && Stored(ks.row, cfg.schema, k)
    requires OwnRows(rows, cfg, k) && forall r | r in rows :: Versioned(r, cfg)
    ensures var end := FoldKey(ks, rows, cfg);
      && Stored(end.row, cfg.schema, k) && (forall r | r in rows :: Quiet(end, r, cfg))
      && (end.row == None ==> end == ks && AllOld(ks.last, rows, cfg))
    decreases |rows|
  {
    hide Decide, NextKey, Quiet, Stored, VersionOf, Versioned;
    if rows != [] {
      var init, next := rows[..|rows| - 1], rows[|rows| - 1];
      assert rows == init + [next];
      VersionedQuiet(ks, init, cfg, k);
      var mid := FoldKey(ks, init, cfg);
      assert mid.row.Some? ==> FoldKey(ks, rows, cfg).row.Some? by { StaysPresent(mid, next, cfg); }
      VersionedStep(mid, next, next, cfg, k);
      forall r | r in init
        ensures Quiet(FoldKey(ks, rows, cfg), r, cfg)
      {
        VersionedStep(mid, r, next, cfg, k);
      }
      assert [next][0] == next && next in [next];
    }
  }

  lemma StaysPresent(ks: KeyState, r: Row, cfg: Config)
    requires cfg.schema.pk in r
    ensures ks.row.Some? ==> NextKey(ks, r, cfg).row.Some?
  {
    hide Decide;
  }

  /** Under last-write-wins, the rows of a key replay to the same state unless the key forgets. */
  lemma LwwReplays(ks: KeyState, own: seq<Row>, cfg: Config, k: Cell)
    requires cfg.schema.Valid() && cfg.policy == LastWriteWins && Stored(ks.row, cfg.schema, k) && OwnRows(own, cfg, k)
    ensures var end := FoldKey(ks, own, cfg); FoldKey(end, own, cfg) == end <==> !LwwForgets(ks, own, cfg)
  {
    hide Decide, NextKey, Quiet, Stored, VersionOf, Versioned, Revives, FoldKey, Inserted;
    var j, end := FirstBare(own, cfg), FoldKey(ks, own, cfg);
    var before, rest := own[..j], own[j..];
    assert own == before + rest;
    BeforeVersioned(own, cfg, k);
    if ks.row.Some? {
      Present(ks, own, cfg, k);
      QuietFold(end, own, cfg);
    } else {
      VersionedQuiet(ks, before, cfg, k);
      if j == |own| {
        assert before == own;
        QuietFold(end, own, cfg);
      } else if AllOld(ks.last, before, cfg) {
        ForgottenReplay(ks, own, j, cfg, k);
      } else {
        OwnPart(before, rest, cfg, k);
        FoldKeyConcat(ks, before, rest, cfg);
        Present(FoldKey(ks, before, cfg), rest, cfg, k);
        assert forall r | r in own :: r in before || r in rest;
        QuietFold(end, own, cfg);
      }
    }
  }

  // ---- The lakehouse is the source of truth ----

  predicate LakeWins(cfg: Config) {
    cfg.policy == SourceOfTruth && cfg.truth == "lakehouse"
  }

  /** The ledger has seen the version of `r`. */
  predicate Seen(last: Option<int>, r: Row, cfg: Config) {
    last.Some? && VersionOf(r, cfg).Some? && VersionOf(r, cfg).value <= last.value
  }

  function LedgerAfter(last: Option<int>, rows: seq<Row>, cfg: Config): Option<int> {
    if rows == [] then last
    else
      var prior, r := LedgerAfter(last, rows[..|rows| - 1], cfg), rows[|rows| - 1];
      if Seen(prior, r, cfg) then prior else VersionOf(r, cfg)
  }

  /** What the rows that the ledger has not seen write into a column, if they do. */
  function ColumnAfter(last: Option<int>, rows: seq<Row>, column: string, cfg: Config): Option<Cell> {
    if rows == [] then None
    else
      var prior, r := LedgerAfter(last, rows[..|rows| - 1], cfg), rows[|rows| - 1];
      if !Seen(prior, r, cfg) && column in r then Some(r[column])
      else ColumnAfter(last, rows[..|rows| - 1], column, cfg)
  }

  /** What a column holds before any of the rows: its value, or the default of a row to be inserted. */
  function Base(row: Option<Row>, column: string, cfg: Config): Cell
    requires column in cfg.schema.columns
  {
    match row
    case Some(r) => Get(r, column)
    case None => Get(cfg.schema.defaults, column)
  }

  function Or(value: Option<Cell>, other: Cell): Cell {
    match value case Some(x) => x case None => other
  }

  lemma LakeStep(ks: KeyState, r: Row, cfg: Config, k: Cell)
    requires cfg.schema.Valid() && LakeWins(cfg) && Stored(ks.row, cfg.schema, k)
    requires cfg.schema.pk in r && r[cfg.schema.pk] == k
    ensures NextKey(ks, r, cfg) ==
      if Seen(ks.last, r, cfg) then ks
      else KeyState(Some(Merged(ks.row, Project(r, cfg.schema), cfg.schema)), VersionOf(r, cfg))
    ensures VersionOf(r, cfg) == None ==> NextKey(ks, r, cfg).row.Some?
    ensures Stored(Some(Merged(ks.row, Project(r, cfg.schema), cfg.schema)), cfg.schema, k)
    ensures forall c | c in cfg.schema.columns && c != cfg.schema.pk ::
      Get(Merged(ks.row, Project(r, cfg.schema), cfg.schema), c) == if c in r then r[c] else Base(ks.row, c, cfg)
  {
    hide VersionOf;
  }

  /** What folding leaves: the ledger, and every column. */
  lemma {:induction false} LakeFold(ks: KeyState, rows: seq<Row>, cfg: Config, k: Cell)
    requires cfg.schema.Valid() && LakeWins(cfg) && Stored(ks.row, cfg.schema, k) && OwnRows(rows, cfg, k)
    ensures var end := FoldKey(ks, rows, cfg);
      && Stored(end.row, cfg.schema, k) && end.last == LedgerAfter(ks.last, rows, cfg)
      && (ks.row.Some? || (exists r | r in rows :: VersionOf(r, cfg) == None) ==> end.row.Some?)
      && forall c | c in cfg.schema.columns && c != cfg.schema.pk ::
           Base(end.row, c, cfg) == Or(ColumnAfter(ks.last, rows, c, cfg), Base(ks.row, c, cfg))
    decreases |rows|
  {
    hide NextKey, Seen, VersionOf, Merged, Stored, LakeWins;
    if rows != [] {
      var init, r := rows[..|rows| - 1], rows[|rows| - 1];
      assert rows == init + [r];
      LakeFold(ks, init, cfg, k);
      LakeStep(FoldKey(ks, init, cfg), r, cfg, k);
    }
  }

  /** From a row without a version on, the ledger and the columns no longer depend on what was before. */
  lemma {:induction false} FromBare(last: Option<int>, before: seq<Row>, rows: seq<Row>, column: string, cfg: Config)
    requires rows != [] && VersionOf(rows[0], cfg) == None
    ensures LedgerAfter(last, before + rows, cfg) == LedgerAfter(None, rows, cfg)
    ensures ColumnAfter(last, before + rows, column, cfg) ==
      if ColumnAfter(None, rows, column, cfg).Some? then ColumnAfter(None, rows, column, cfg)
      else ColumnAfter(last, before, column, cfg)
    decreases |rows|
  {
    hide VersionOf;
    var init, r := rows[..|rows| - 1], rows[|rows| - 1];
    assert (before + rows)[..|before + rows| - 1] == before + init;
    if init == [] {
      assert before + init == before;
    } else {
      FromBare(last, before, init, column, cfg);
    }
  }

  /**
   * Some column is not written from the first row without a version on, and the rows before it, seen with the ledger
   * that the call ends with, write another value into it than the call leaves there.
   */
  predicate LakeRewrites(ks: KeyState, own: seq<Row>, cfg: Config) {
    var j := FirstBare(own, cfg);
    j < |own| && exists c | c in cfg.schema.columns ::
      && c != cfg.schema.pk && ColumnAfter(None, own[j..], c, cfg) == None
      && var again := ColumnAfter(LedgerAfter(None, own[j..], cfg), own[..j], c, cfg);
      again.Some? && again.value != Or(ColumnAfter(ks.last, own[..j], c, cfg), Base(ks.row, c, cfg))
  }

  lemma SameKey(a: KeyState, b: KeyState, cfg: Config, k: Cell)
    requires cfg.schema.Valid() && Stored(a.row, cfg.schema, k) && Stored(b.row, cfg.schema, k)
    requires a.row.Some? && b.row.Some? && a.last == b.last
    ensures a == b <==>
      forall c | c in cfg.schema.columns && c != cfg.schema.pk :: Base(a.row, c, cfg) == Base(b.row, c, cfg)
  {
    if forall c | c in cfg.schema.columns && c != cfg.schema.pk :: Base(a.row, c, cfg) == Base(b.row, c, cfg) {
      forall c | c in cfg.schema.columns
        ensures a.row.value[c] == b.row.value[c]
      {
        assert c != cfg.schema.pk ==> Base(a.row, c, cfg) == Base(b.row, c, cfg);
      }
      assert a.row.value == b.row.value;
    }
  }

  lemma {:induction false} SeenAll(last: Option<int>, rows: seq<Row>, cfg: Config)
    requires forall r | r in rows :: VersionOf(r, cfg).Some?
    ensures forall r | r in rows :: Seen(LedgerAfter(last, rows, cfg), r, cfg)
    ensures last.Some? ==> LedgerAfter(last, rows, cfg).Some? && LedgerAfter(last, rows, cfg).value >= last.value
    decreases |rows|
  {
    hide VersionOf;
    if rows != [] {
      var init, r := rows[..|rows| - 1], rows[|rows| - 1];
      assert rows == init + [r] && r in rows;
      SeenAll(last, init, cfg);
    }
  }

  lemma {:induction false} SeenFold(ks: KeyState, rows: seq<Row>, cfg: Config, k: Cell)
    requires cfg.schema.Valid() && LakeWins(cfg) && Stored(ks.row, cfg.schema, k) && OwnRows(rows, cfg, k)
    requires forall r | r in rows :: Seen(ks.last, r, cfg)
    ensures FoldKey(ks, rows, cfg) == ks
    decreases |rows|
  {
    hide NextKey, Seen, VersionOf, Merged, Stored, LakeWins;
    if rows != [] {
      assert rows[|rows| - 1] in rows;
      SeenFold(ks, rows[..|rows| - 1], cfg, k);
      LakeStep(ks, rows[|rows| - 1], cfg, k);
    }
  }

  /** Where the lakehouse wins, the rows of a key replay to the same state unless an older row rewrites a column. */
  lemma LakeReplays(ks: KeyState, own: seq<Row>, cfg: Config, k: Cell)
    requires cfg.schema.Valid() && LakeWins(cfg) && Stored(ks.row, cfg.schema, k) && OwnRows(own, cfg, k)
    ensures var end := FoldKey(ks, own, cfg); FoldKey(end, own, cfg) == end <==> !LakeRewrites(ks, own, cfg)
  {
    hide NextKey, Seen, VersionOf, Stored, LakeWins, FoldKey, ColumnAfter, LedgerAfter, Base;
    var j, end := FirstBare(own, cfg), FoldKey(ks, own, cfg);
    LakeFold(ks, own, cfg, k);
    if j == |own| {
      SeenAll(ks.last, own, cfg);
      SeenFold(end, own, cfg, k);
    } else {
      var before, rest := own[..j], own[j..];
      assert own == before + rest && own[j] in own;
      LakeFold(end, own, cfg, k);
      var again := FoldKey(end, own, cfg);
      forall c | c in cfg.schema.columns && c != cfg.schema.pk
        ensures Base(again.row, c, cfg) == Base(end.row, c, cfg) <==>
          (ColumnAfter(None, rest, c, cfg) == None && ColumnAfter(end.last, before, c, cfg).Some? ==>
            ColumnAfter(end.last, before, c, cfg).value ==
              Or(ColumnAfter(ks.last, before, c, cfg), Base(ks.row, c, cfg)))
      {
        FromBare(ks.last, before, rest, c, cfg);
        FromBare(end.last, before, rest, c, cfg);
      }
      FromBare(ks.last, before, rest, cfg.schema.pk, cfg);
      FromBare(end.last, before, rest, cfg.schema.pk, cfg);
      SameKey(again, end, cfg, k);
    }
  }

  // ---- Every policy ----

  /** Repeating the rows of a key would change what the call left of it; read off the rows and the state before. */
  predicate Changes(ks: KeyState, own: seq<Row>, cfg: Config) {
    if cfg.policy == LastWriteWins then LwwForgets(ks, own, cfg)
    else LakeWins(cfg) && LakeRewrites(ks, own, cfg)
  }

  lemma {:induction false} NeverFails(db: Db, rows: seq<Row>, cfg: Config)
    requires cfg.schema.Valid() && (cfg.policy == LastWriteWins || LakeWins(cfg))
    requires forall r | r in rows :: cfg.schema.pk in r
    ensures SyncBatch(db, rows, cfg).Ok?
    decreases |rows|
  {
    hide VersionOf, Values, Upsert, Project;
    if rows != [] {
      assert rows[|rows| - 1] in rows;
      NeverFails(db, rows[..|rows| - 1], cfg);
    }
  }

  lemma {:induction false} BatchKeyed(db: Db, rows: seq<Row>, cfg: Config)
    requires cfg.schema.Valid() && SyncBatch(db, rows, cfg).Ok?
    ensures forall r | r in rows :: cfg.schema.pk in r
    decreases |rows|
  {
    hide Decide, Values, Upsert, VersionOf;
    if rows != [] {
      BatchKeyed(db, rows[..|rows| - 1], cfg);
      assert rows == rows[..|rows| - 1] + [rows[|rows| - 1]];
    }
  }

  /** A committed call can be repeated without effect exactly when no key of it changes. */
  lemma ReplayExactly(db: Db, rows: seq<Row>, cfg: Config)
    requires cfg.schema.Valid() && WellFormed(db.rows, cfg.schema) && SyncBatch(db, rows, cfg).Ok?
    ensures Call(Call(db, rows, cfg), rows, cfg) == Call(db, rows, cfg) <==>
      forall k :: !Changes(KeyOf(db, k), OfKey(rows, RowKey(cfg.schema.pk), k), cfg)
  {
    hide SyncBatch, FoldKey, OfKey, KeyOf, LwwForgets, LakeRewrites, Stored, WellFormed;
    if cfg.policy != LastWriteWins && !LakeWins(cfg) {
      KeepingReplays(db, rows, cfg);
    } else {
      var once := Call(db, rows, cfg);
      BatchKeyed(db, rows, cfg);
      NeverFails(once, rows, cfg);
      var twice := Call(once, rows, cfg);
      forall k
        ensures KeyOf(twice, k) == KeyOf(once, k) <==>
          !Changes(KeyOf(db, k), OfKey(rows, RowKey(cfg.schema.pk), k), cfg)
      {
        var own := OfKey(rows, RowKey(cfg.schema.pk), k);
        BatchPointwise(db, rows, cfg, k);
        BatchPointwise(once, rows, cfg, k);
        OwnOf(rows, cfg, k);
        KeyRow(db, k);
        LookupStored(db.rows, cfg.schema, k);
        if cfg.policy == LastWriteWins {
          LwwReplays(KeyOf(db, k), own, cfg, k);
        } else {
          LakeReplays(KeyOf(db, k), own, cfg, k);
        }
      }
      SameDb(twice, once);
    }
  }

  lemma OwnOf(rows: seq<Row>, cfg: Config, k: Cell)
    ensures OwnRows(OfKey(rows, RowKey(cfg.schema.pk), k), cfg, k)
  {
    hide OfKey;
    OfKeyIn(rows, RowKey(cfg.schema.pk), k);
  }
}
