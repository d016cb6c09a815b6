/** What each policy name does to a row, in terms of the table, the ledger and the versions in the rows. */
module ReverseSyncPolicies {
  import opened Wrappers
  import opened Transform
  import opened Postgres
  import opened Conflict
  import opened ReverseSync

  const NAMES: set<string> := {"last_write_wins", "source_of_truth", "merge", "error"}

  /** The row carries version `v`. */
  predicate HasVersion(row: Row, versionCol: Option<string>, v: int) {
    versionCol.Some? && versionCol.value in row && row[versionCol.value] == Number(v)
  }

  ghost predicate NoVersion(row: Row, versionCol: Option<string>) {
    forall v: int :: !HasVersion(row, versionCol, v)
  }

  /** The row's version is not above the one the ledger has for its key. */
  ghost predicate Duplicate(db: Db, r: Row, schema: Schema, versionCol: Option<string>)
    requires schema.pk in r
  {
    var k := r[schema.pk];
    k in db.ledger && exists v: int :: HasVersion(r, versionCol, v) && v <= db.ledger[k]
  }

  /** Exactly the row's key changes: its columns that the table has, and its ledger version. */
  ghost predicate Written(db: Db, after: Db, r: Row, schema: Schema, versionCol: Option<string>)
    requires schema.Valid() && schema.pk in r
  {
    var k := r[schema.pk];
    && (forall other | other != k ::
          && (other in after.rows <==> other in db.rows) && (other in db.rows ==> after.rows[other] == db.rows[other])
          && (other in after.ledger <==> other in db.ledger)
          && (other in db.ledger ==> after.ledger[other] == db.ledger[other]))
    && k in after.rows
    && (forall c | c in schema.columns ::
          c in after.rows[k] &&
          (after.rows[k][c] ==
             if c in r then r[c] else if k in db.rows then Get(db.rows[k], c) else schema.defaults[c]))
    && (NoVersion(r, versionCol) ==> k !in after.ledger)
    && (forall v: int | HasVersion(r, versionCol, v) :: k in after.ledger && after.ledger[k] == v)
  }

  /** The row is written, and reported as applied. */
  ghost predicate Applied(db: Db, out: (Db, Result<seq<Action>, Failure>), r: Row, schema: Schema,
                          versionCol: Option<string>)
    requires schema.Valid() && schema.pk in r
  {
    out.1 == Ok([Apply]) && Written(db, out.0, r, schema, versionCol)
  }

  /** A known row, not seen before, that meets a row of the table. */
  ghost predicate Conflicting(db: Db, r: Row, schema: Schema, versionCol: Option<string>) {
    schema.pk in r && r[schema.pk] in db.rows && !Duplicate(db, r, schema, versionCol)
  }

  // ---- Versions and rows ----

  lemma VersionIs(row: Row, cfg: Config)
    ensures VersionOf(row, cfg) == None <==> NoVersion(row, cfg.versionCol)
    ensures forall v: int :: HasVersion(row, cfg.versionCol, v) <==> VersionOf(row, cfg) == Some(v)
  {
    if VersionOf(row, cfg).Some? {
      assert HasVersion(row, cfg.versionCol, VersionOf(row, cfg).value);
    }
  }

  lemma OneRow(db: Db, r: Row, cfg: Config)
    requires cfg.schema.Valid()
    ensures SyncBatch(db, [r], cfg) ==
      match SyncRow(db, r, cfg) case Ok((after, action)) => Ok((after, [action])) case Err(f) => Err(f)
  {
    hide SyncRow;
    assert [r][..0] == [];
    assert SyncBatch(db, [], cfg) == Ok((db, []));
    if SyncRow(db, r, cfg).Ok? {
      assert [] + [SyncRow(db, r, cfg).value.1] == [SyncRow(db, r, cfg).value.1];
    }
  }

  lemma WritesRow(db: Db, r: Row, cfg: Config)
    requires cfg.schema.Valid() && WellFormed(db.rows, cfg.schema) && cfg.schema.pk in r
    requires var d := Decide(KeyOf(db, r[cfg.schema.pk]), r, cfg); d.Ok? && Writes(d.value)
    ensures SyncRow(db, r, cfg).Ok? && Written(db, SyncRow(db, r, cfg).value.0, r, cfg.schema, cfg.versionCol)
  {
    hide Decide, VersionOf, NoVersion, HasVersion;
    VersionIs(r, cfg);
    AppliedValues(KeyOf(db, r[cfg.schema.pk]), r, cfg);
  }

  // ---- What every policy does ----

  /** A name that is none of the four fails the call, and so does a row without its key. */
  lemma Refused(db: Db, rows: seq<Row>, schema: Schema, versionCol: Option<string>, policy: string, truth: string)
    requires schema.Valid()
    ensures policy !in NAMES ==> CallByName(db, rows, schema, versionCol, policy, truth) == (db, Err(Invalid))
    ensures |rows| == 1 && schema.pk !in rows[0] ==>
      CallByName(db, rows, schema, versionCol, policy, truth) == (db, Err(Invalid))
  {
    if |rows| == 1 && ParsePolicy(policy).Some? {
      assert rows == [rows[0]];
      OneRow(db, rows[0], Config(schema, versionCol, ParsePolicy(policy).value, truth));
    }
  }

  /** Under every policy a row the ledger has seen is skipped, and another row of a new key is inserted. */
  lemma SeenOrNew(db: Db, r: Row, schema: Schema, versionCol: Option<string>, policy: string, truth: string)
    requires schema.Valid() && WellFormed(db.rows, schema) && schema.pk in r && policy in NAMES
    ensures var out := CallByName(db, [r], schema, versionCol, policy, truth);
      && (Duplicate(db, r, schema, versionCol) ==> out == (db, Ok([SkipDuplicate])))
      && (!Duplicate(db, r, schema, versionCol) && r[schema.pk] !in db.rows ==>
            Applied(db, out, r, schema, versionCol))
  {
    hide VersionOf, HasVersion, NoVersion, Written;
    var cfg := Config(schema, versionCol, ParsePolicy(policy).value, truth);
    OneRow(db, r, cfg);
    VersionIs(r, cfg);
    if !Duplicate(db, r, schema, versionCol) && r[schema.pk] !in db.rows {
      WritesRow(db, r, cfg);
    }
  }

  // ---- What each policy does to a conflict ----

  /**
   * Last write wins: the row is written exactly when its version is above the table's, or equal and the truth is not
   * Postgres; without a version on both sides the row is an error. Only a written row changes anything.
   */
  lemma LastWriteWinsDoes(db: Db, r: Row, schema: Schema, versionCol: Option<string>, truth: string)
    requires schema.Valid() && WellFormed(db.rows, schema) && Conflicting(db, r, schema, versionCol)
    ensures var out, row := CallByName(db, [r], schema, versionCol, "last_write_wins", truth), db.rows[r[schema.pk]];
      && (NoVersion(r, versionCol) || NoVersion(row, versionCol) ==> out == (db, Ok([Error])))
      && forall v: int, w: int | HasVersion(r, versionCol, v) && HasVersion(row, versionCol, w) ::
           if v > w || (v == w && truth != "postgres") then Applied(db, out, r, schema, versionCol)
           else out == (db, Ok([SkipPgWins]))
  {
    hide VersionOf, HasVersion, NoVersion, Written;
    var cfg, row := Config(schema, versionCol, LastWriteWins, truth), db.rows[r[schema.pk]];
    OneRow(db, r, cfg);
    VersionIs(r, cfg);
    VersionIs(row, cfg);
    var d := Decide(KeyOf(db, r[schema.pk]), r, cfg);
    if d.Ok? && Writes(d.value) {
      WritesRow(db, r, cfg);
    }
  }

  /** A fixed source of truth: the row is written exactly when the lakehouse is it, whatever the versions. */
  lemma SourceOfTruthDoes(db: Db, r: Row, schema: Schema, versionCol: Option<string>, truth: string)
    requires schema.Valid() && WellFormed(db.rows, schema) && Conflicting(db, r, schema, versionCol)
    ensures var out := CallByName(db, [r], schema, versionCol, "source_of_truth", truth);
      if truth == "lakehouse" then Applied(db, out, r, schema, versionCol)
      else if truth == "postgres" then out == (db, Ok([SkipPgWins]))
      else out == (db, Err(Invalid))
  {
    hide VersionOf, HasVersion, NoVersion, Written;
    var cfg := Config(schema, versionCol, SourceOfTruth, truth);
    OneRow(db, r, cfg);
    VersionIs(r, cfg);
    if truth == "lakehouse" {
      WritesRow(db, r, cfg);
    }
  }

  /** Under `error` a conflict is reported and changes nothing; under `merge` it fails the call. */
  lemma ErrorAndMergeDo(db: Db, r: Row, schema: Schema, versionCol: Option<string>, truth: string)
    requires schema.Valid() && Conflicting(db, r, schema, versionCol)
    ensures CallByName(db, [r], schema, versionCol, "error", truth) == (db, Ok([Error]))
    ensures CallByName(db, [r], schema, versionCol, "merge", truth) == (db, Err(Invalid))
  {
    hide VersionOf, HasVersion, NoVersion, Written;
    VersionIs(r, Config(schema, versionCol, Refuse, truth));
    VersionIs(r, Config(schema, versionCol, Merge, truth));
    OneRow(db, r, Config(schema, versionCol, Refuse, truth));
    OneRow(db, r, Config(schema, versionCol, Merge, truth));
  }

  /** Rows of one call are decided in order, each on what the earlier ones left, and one failure undoes them all. */
  lemma RowByRow(db: Db, rows: seq<Row>, r: Row, schema: Schema, versionCol: Option<string>, policy: string,
                 truth: string)
    requires schema.Valid()
    ensures var before := CallByName(db, rows, schema, versionCol, policy, truth);
      var all := CallByName(db, rows + [r], schema, versionCol, policy, truth);
      match before.1
      case Err(f) => all == (db, Err(f))
      case Ok(actions) =>
        match CallByName(before.0, [r], schema, versionCol, policy, truth)
        case (_, Err(f)) => all == (db, Err(f))
        case (after, Ok(last)) => all == (after, Ok(actions + last))
  {
    hide SyncRow;
    assert (rows + [r])[..|rows + [r]| - 1] == rows;
    if ParsePolicy(policy).Some? {
      var cfg := Config(schema, versionCol, ParsePolicy(policy).value, truth);
      if SyncBatch(db, rows, cfg).Ok? {
        OneRow(SyncBatch(db, rows, cfg).value.0, r, cfg);
      }
    }
  }

  /** With a callback, which reverse sync never passes, a conflict ends with what it makes of the two rows. */
  lemma MergeResolves(lake: SideRow, pg: SideRow, last: Option<int>, truth: string, merge: MergeFn)
    requires pg.key == lake.key && !(last.Some? && lake.version.Some? && lake.version.value <= last.value)
    ensures DecideReverseApply(lake, Some(pg), Merge, last, truth, Some(merge)) ==
      Ok(Decision(ApplyMerge, Some(merge(pg, lake))))
  {
  }
}
