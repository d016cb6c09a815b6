/** The inbox as its writers see it: rows inserted, updated and deleted, and what Postgres then holds of them. */
module InboxEdits {
  import opened Wrappers
  import opened Transform
  import opened Postgres
  import opened Sequences
  import opened Inbox
  import opened InboxMirror

  datatype Edit =
    | Inserted(row: Row)
    | Updated(before: Row, after: Row)
    | Deleted(row: Row)

  /** The change-feed rows of an edit, as Delta's change data feed names them. */
  function FeedOf(e: Edit, version: nat): seq<CdfRow> {
    match e
    case Inserted(row) => [CdfRow("insert", version, row)]
    case Updated(before, after) =>
      [CdfRow("update_preimage", version, before), CdfRow("update_postimage", version, after)]
    case Deleted(row) => [CdfRow("delete", version, row)]
  }

  function Feed(edits: seq<Edit>, version: nat): seq<CdfRow> {
    if edits == [] then [] else Feed(edits[..|edits| - 1], version) + FeedOf(edits[|edits| - 1], version)
  }

  /** Commit `v` of the inbox is what the edits of its transaction leave in the feed. */
  function LogOf(commits: seq<seq<Edit>>): Log {
    seq(|commits|, v requires 0 <= v < |commits| => Feed(commits[v], v))
  }

  // ---- The inbox table itself ----

  function Key(row: Row, pk: string): Cell { Get(row, pk) }

  function Edited(t: Rows, e: Edit, pk: string): Rows {
    match e
    case Inserted(row) => t[Key(row, pk) := row]
    case Updated(before, after) => (t - {Key(before, pk)})[Key(after, pk) := after]
    case Deleted(row) => t - {Key(row, pk)}
  }

  function EditedAll(edits: seq<Edit>, pk: string): Rows {
    if edits == [] then map[] else Edited(EditedAll(edits[..|edits| - 1], pk), edits[|edits| - 1], pk)
  }

  ghost predicate InboxRow(row: Row, schema: Schema, columns: set<string>) {
    schema.pk in row && Project(row, schema).Keys == columns
  }

  /** An edit inserts a new key, or updates or deletes a row the table has. */
  ghost predicate Fits(t: Rows, e: Edit, schema: Schema, columns: set<string>) {
    match e
    case Inserted(row) => InboxRow(row, schema, columns) && Key(row, schema.pk) !in t
    case Updated(before, after) =>
      && InboxRow(before, schema, columns) && InboxRow(after, schema, columns)
      && Lookup(t, Key(before, schema.pk)) == Some(before)
      && (Key(after, schema.pk) == Key(before, schema.pk) || Key(after, schema.pk) !in t)
    case Deleted(row) => InboxRow(row, schema, columns) && Lookup(t, Key(row, schema.pk)) == Some(row)
  }

  ghost predicate FitAll(edits: seq<Edit>, schema: Schema, columns: set<string>) {
    edits == [] ||
    (FitAll(edits[..|edits| - 1], schema, columns) &&
     Fits(EditedAll(edits[..|edits| - 1], schema.pk), edits[|edits| - 1], schema, columns))
  }

  /** An update gave the row of key `k` another key, and nothing used `k` again. */
  predicate Orphaned(edits: seq<Edit>, pk: string, k: Cell) {
    edits != [] &&
    match edits[|edits| - 1]
    case Updated(before, after) =>
      if Key(after, pk) == k then false
      else Key(before, pk) == k || Orphaned(edits[..|edits| - 1], pk, k)
    case Inserted(row) => Key(row, pk) != k && Orphaned(edits[..|edits| - 1], pk, k)
    case Deleted(row) => Key(row, pk) != k && Orphaned(edits[..|edits| - 1], pk, k)
  }

  // ---- The changes the watcher makes of it ----

  function ChangeOf(e: Edit): Change {
    match e
    case Inserted(row) => Change(false, row)
    case Updated(_, after) => Change(false, after)
    case Deleted(row) => Change(true, row)
  }

  function ChangesOf(edits: seq<Edit>): seq<Change> {
    seq(|edits|, i requires 0 <= i < |edits| => ChangeOf(edits[i]))
  }

  /** The last change of key `k`, if there is one. */
  function LastOf(edits: seq<Edit>, pk: string, k: Cell): Option<Change> {
    if edits == [] then None
    else if Key(ChangeOf(edits[|edits| - 1]).row, pk) == k then Some(ChangeOf(edits[|edits| - 1]))
    else LastOf(edits[..|edits| - 1], pk, k)
  }

  /** The table has a key exactly when its last change is no delete and no later update moved its row away. */
  lemma {:induction false} TableByLast(edits: seq<Edit>, schema: Schema, columns: set<string>, k: Cell)
    requires FitAll(edits, schema, columns)
    ensures Lookup(EditedAll(edits, schema.pk), k) ==
      match LastOf(edits, schema.pk, k)
      case None => None
      case Some(c) => if c.deletes || Orphaned(edits, schema.pk, k) then None else Some(c.row)
    ensures Orphaned(edits, schema.pk, k) ==>
      LastOf(edits, schema.pk, k).Some? && !LastOf(edits, schema.pk, k).value.deletes
    decreases |edits|
  {
    hide InboxRow;
    if edits != [] {
      TableByLast(edits[..|edits| - 1], schema, columns, k);
    }
  }

  lemma EditChange(e: Edit, version: nat, pk: string)
    requires pk in ChangeOf(e).row
    ensures Changes(FeedOf(e, version), pk) == [ChangeOf(e)]
  {
    var rows := FeedOf(e, version);
    assert Changes(rows[..0], pk) == [];
    if e.Updated? {
      assert rows[..2][..1] == rows[..1] && rows[..2] == rows && rows[..1][..0] == rows[..0];
      assert Changes(rows[..1], pk) == [];
    }
  }

  lemma {:induction false} FeedChanges(edits: seq<Edit>, version: nat, pk: string)
    requires forall e | e in edits :: pk in ChangeOf(e).row
    ensures Changes(Feed(edits, version), pk) == ChangesOf(edits)
    decreases |edits|
  {
    hide FeedOf, ChangeOf, Changes;
    if edits == [] {
      NoChanges(pk);
    } else {
      var init, e := edits[..|edits| - 1], edits[|edits| - 1];
      assert edits == init + [e] && e in edits;
      FeedChanges(init, version, pk);
      EditChange(e, version, pk);
      ChangesConcat(Feed(init, version), FeedOf(e, version), pk);
    }
  }

  lemma {:induction false} FeedVersions(edits: seq<Edit>, version: nat)
    ensures forall r | r in Feed(edits, version) :: r.version == version
    decreases |edits|
  {
    if edits != [] {
      FeedVersions(edits[..|edits| - 1], version);
    }
  }

  lemma {:induction false} LogChanges(commits: seq<seq<Edit>>, m: nat, pk: string)
    requires m <= |commits| && forall e | e in Flatten(commits[..m]) :: pk in ChangeOf(e).row
    ensures History(LogOf(commits), 0, m, pk) == ChangesOf(Flatten(commits[..m]))
    decreases m
  {
    hide Feed, ChangeOf, Changes;
    if m == 0 {
      assert commits[..0] == [] && Changes([], pk) == [] by { NoChanges(pk); }
    } else {
      assert commits[..m][..m - 1] == commits[..m - 1];
      LogChanges(commits, m - 1, pk);
      FeedChanges(commits[m - 1], m - 1, pk);
      ChangesConcat(Commits(LogOf(commits), 0, m - 1), Feed(commits[m - 1], m - 1), pk);
      assert ChangesOf(Flatten(commits[..m])) == ChangesOf(Flatten(commits[..m - 1])) + ChangesOf(commits[m - 1]);
    }
  }

  lemma NoChanges(pk: string)
    ensures Changes([], pk) == []
  {
  }

  // ---- What Postgres holds of the inbox ----

  lemma {:induction false} LastIs(edits: seq<Edit>, pk: string, k: Cell)
    requires forall e | e in edits :: pk in ChangeOf(e).row
    ensures var own := OfKey(ChangesOf(edits), ChangeKey(pk), k);
      LastOf(edits, pk, k) == if own == [] then None else Some(own[|own| - 1])
    decreases |edits|
  {
    if edits != [] {
      var init, e := edits[..|edits| - 1], edits[|edits| - 1];
      assert edits == init + [e] && e in edits;
      LastIs(init, pk, k);
      assert ChangesOf(edits) == ChangesOf(init) + [ChangeOf(e)];
      OfKeySnoc(ChangesOf(init), ChangeOf(e), pk, k);
    }
  }

  lemma {:induction false} FitRows(edits: seq<Edit>, schema: Schema, columns: set<string>)
    requires FitAll(edits, schema, columns)
    ensures forall e | e in edits :: InboxRow(ChangeOf(e).row, schema, columns) && schema.pk in ChangeOf(e).row
    decreases |edits|
  {
    if edits != [] {
      FitRows(edits[..|edits| - 1], schema, columns);
      assert edits == edits[..|edits| - 1] + [edits[|edits| - 1]];
    }
  }

  /** The row a key should have after its last change. */
  function Left(c: Change): Option<Row> { if c.deletes then None else Some(c.row) }

  /** What one change leaves of an absent row, on the inbox columns. */
  lemma ChangeLeaves(c: Change, schema: Schema, columns: set<string>)
    requires schema.Valid() && columns <= schema.columns && InboxRow(c.row, schema, columns)
    ensures Agree(Fold(None, [c], schema), Left(c), columns)
  {
    assert [c][..0] == [];
  }

  lemma EditsCover(edits: seq<Edit>, schema: Schema, columns: set<string>)
    requires schema.Valid() && columns <= schema.columns && edits != []
    requires forall e | e in edits :: InboxRow(ChangeOf(e).row, schema, columns)
    ensures Covers(ChangesOf(edits), schema, columns)
  {
    assert InboxRow(ChangeOf(edits[0]).row, schema, columns) by { assert edits[0] in edits; }
    forall c | c in ChangesOf(edits)
      ensures InboxRow(c.row, schema, columns)
    {
      var i :| 0 <= i < |edits| && ChangeOf(edits[i]) == c;
      assert edits[i] in edits;
    }
  }

  /** Replaying the changes leaves the row of the last one, on the inbox columns. */
  lemma ReplayedLast(edits: seq<Edit>, schema: Schema, columns: set<string>, k: Cell)
    requires schema.Valid() && columns <= schema.columns && LastOf(edits, schema.pk, k).Some?
    requires forall e | e in edits :: InboxRow(ChangeOf(e).row, schema, columns) && schema.pk in ChangeOf(e).row
    requires forall c | c in ChangesOf(edits) :: schema.pk in c.row
    ensures OfKey(ChangesOf(edits), ChangeKey(schema.pk), k) != []
    ensures var replayed := ApplyAll(map[], ChangesOf(edits), schema);
      Agree(Lookup(replayed, k), Left(LastOf(edits, schema.pk, k).value), columns)
  {
    hide InboxRow, ApplyAll, Fold, Agree, Covers, LastOf, OfKey, ChangesOf, Left;
    var cs := ChangesOf(edits);
    var own := OfKey(cs, ChangeKey(schema.pk), k);
    LastIs(edits, schema.pk, k);
    assert edits != [] by { LastExists(edits, schema.pk, k); }
    EditsCover(edits, schema, columns);
    OfKeyCovers(cs, schema, columns, k);
    ApplyPointwise(map[], cs, schema, k);
    LastDecides(None, own, schema, columns, k);
    var c := own[|own| - 1];
    assert c in own && Last(own) == [c];
    OfKeyIn(cs, ChangeKey(schema.pk), k);
    assert InboxRow(c.row, schema, columns) by { ChangeRow(edits, c, schema, columns); }
    ChangeLeaves(c, schema, columns);
    AgreeTransitive(Fold(None, own, schema), Fold(None, [c], schema), Left(c), columns);
  }

  lemma LastExists(edits: seq<Edit>, pk: string, k: Cell)
    requires LastOf(edits, pk, k).Some?
    ensures edits != []
  {
  }

  lemma ChangeRow(edits: seq<Edit>, c: Change, schema: Schema, columns: set<string>)
    requires forall e | e in edits :: InboxRow(ChangeOf(e).row, schema, columns)
    requires c in ChangesOf(edits)
    ensures InboxRow(c.row, schema, columns)
  {
    var i :| 0 <= i < |edits| && ChangeOf(edits[i]) == c;
    assert edits[i] in edits;
  }

  /**
   * At a mirrored version, a key that the inbox touched is in Postgres as it is in the inbox, columns, values and
   * absence, exactly when no update moved its row to another key for good.
   */
  lemma MirrorsInboxExactly(s: Mirror, start: Rows, m: nat, commits: seq<seq<Edit>>, schema: Schema,
                            columns: set<string>, k: Cell)
    requires schema.Valid() && InvAt(s, start, m, schema, columns) && s.log == LogOf(commits)
    requires columns <= schema.columns && FitAll(Flatten(commits[..m]), schema, columns)
    requires LastOf(Flatten(commits[..m]), schema.pk, k).Some?
    ensures var edits := Flatten(commits[..m]);
      Agree(Lookup(s.rows, k), Lookup(EditedAll(edits, schema.pk), k), columns) <==> !Orphaned(edits, schema.pk, k)
  {
    hide InvAt, FitAll, EditedAll, Orphaned, InboxRow, OfKey, ApplyAll, History, LastOf, Flatten, ChangesOf, Agree;
    assert m <= |commits| by { MirroredWithin(s, start, m, schema, columns); }
    var edits, pk := Flatten(commits[..m]), schema.pk;
    FitRows(edits, schema, columns);
    LogChanges(commits, m, pk);
    TableByLast(edits, schema, columns, k);
    MirrorMeaning(s, start, m, schema, columns, k);
    ReplayedLast(edits, schema, columns, k);
    var left := Left(LastOf(edits, pk, k).value);
    AgreeTransitive(Lookup(s.rows, k), Lookup(Snapshot(s.log, m, schema), k), left, columns);
    AgreeKinds(Lookup(s.rows, k), left, columns);
  }

  lemma MirroredWithin(s: Mirror, start: Rows, m: nat, schema: Schema, columns: set<string>)
    requires schema.Valid() && InvAt(s, start, m, schema, columns)
    ensures m <= |s.log|
  {
  }

  lemma AgreeKinds(a: Option<Row>, b: Option<Row>, columns: set<string>)
    requires Agree(a, b, columns)
    ensures a.Some? <==> b.Some?
    ensures Agree(a, None, columns) <==> a == None
  {
  }

  /** An inbox written by such edits keeps its versions and its columns. */
  lemma EditedShape(commits: seq<seq<Edit>>, schema: Schema, columns: set<string>)
    requires schema.Valid() && columns <= schema.columns && Flatten(commits) != []
    requires FitAll(Flatten(commits), schema, columns)
    ensures InboxShape(LogOf(commits), schema, columns)
  {
    hide Feed, FitAll, InboxRow, Flatten, Covers, History, ChangesOf;
    var log := LogOf(commits);
    forall v: nat, r: CdfRow | v < |log| && r in log[v]
      ensures r.version == v
    {
      FeedVersions(commits[v], v);
    }
    assert commits[..|commits|] == commits;
    FitRows(Flatten(commits), schema, columns);
    LogChanges(commits, |commits|, schema.pk);
    EditsCover(Flatten(commits), schema, columns);
  }

  /** From an empty Postgres table, one cycle over an insert and an update of its key leaves the old key's row there. */
  lemma MovedKeyStays(first: Row, second: Row, schema: Schema, columns: set<string>)
    requires schema.Valid() && columns <= schema.columns
    requires InboxRow(first, schema, columns) && InboxRow(second, schema, columns)
    requires first[schema.pk] != second[schema.pk]
    ensures var commits := [[Inserted(first)], [Updated(first, second)]];
      var s := Mirror(LogOf(commits), map[], -1, Idle);
      var loaded := Step(Step(s, Open, schema), Load(2, Commits(s.log, 0, 2)), schema);
      var done := Step(Step(loaded, Post(Accepted), schema), Save(true), schema);
      && InboxMirror.Initial(s, schema, columns) && done.saved == 1
      && first[schema.pk] in done.rows && first[schema.pk] !in EditedAll(Flatten(commits), schema.pk)
  {
    var a, b, k := Inserted(first), Updated(first, second), first[schema.pk];
    hide Feed, InboxShape, Step, InvAt, Covers, Agree, Commits, InboxRow;
    var commits := [[a], [b]];
    var edits := Flatten(commits);
    FlattenTwo(a, b);
    TwoEdits(first, second, schema, columns);
    EditedShape(commits, schema, columns);
    var s := Mirror(LogOf(commits), map[], -1, Idle);
    ShapeVersions(s.log, schema, columns);
    forall v: nat
      ensures OfKey(Commits(s.log, 0, 2), ByVersion, v) == if 0 <= v < 2 then s.log[v] else []
    {
      CommitsOfVersion(s.log, 0, 2, v);
    }
    StartMirrors(s, schema, columns);
    CycleCatchesUp(s, map[], 0, Commits(s.log, 0, 2), schema, columns);
    var loaded := Step(Step(s, Open, schema), Load(2, Commits(s.log, 0, 2)), schema);
    var done := Step(Step(loaded, Post(Accepted), schema), Save(true), schema);
    assert commits[..2] == commits;
    MirrorsInboxExactly(done, map[], 2, commits, schema, columns, k);
    assert !Agree(Lookup(done.rows, k), None, columns);
    AbsentAgrees(columns);
  }

  lemma ShapeVersions(log: Log, schema: Schema, columns: set<string>)
    requires InboxShape(log, schema, columns)
    ensures InboxMirror.Versioned(log)
  {
  }

  lemma AbsentAgrees(columns: set<string>)
    ensures Agree(None, None, columns)
  {
  }

  lemma FlattenTwo(a: Edit, b: Edit)
    ensures Flatten([[a], [b]]) == [a, b]
  {
    var batches := [[a], [b]];
    assert batches[..1] == [[a]] && batches[..1][..0] == [];
    assert Flatten(batches[..1]) == [] + [a];
  }

  lemma TwoEdits(first: Row, second: Row, schema: Schema, columns: set<string>)
    requires InboxRow(first, schema, columns) && InboxRow(second, schema, columns)
    requires first[schema.pk] != second[schema.pk]
    ensures var edits := [Inserted(first), Updated(first, second)]; var k := first[schema.pk];
      && FitAll(edits, schema, columns) && LastOf(edits, schema.pk, k) == Some(Change(false, first))
      && Orphaned(edits, schema.pk, k) && k !in EditedAll(edits, schema.pk)
  {
    hide Project;
    var edits := [Inserted(first), Updated(first, second)];
    assert edits[..1] == [Inserted(first)] && edits[..1][..0] == [];
    assert EditedAll([], schema.pk) == map[] && FitAll([], schema, columns);
    assert EditedAll(edits[..1], schema.pk) == map[first[schema.pk] := first];
  }
}
