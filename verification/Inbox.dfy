/** The inbox watcher: change-feed rows collapsed to one net change per key and applied to Postgres. */
module Inbox {
  import opened Wrappers
  import opened Transform
  import opened Postgres
  import opened Sequences

  /** A change-feed row, without its metadata columns and with JSON-safe values. */
  datatype CdfRow = CdfRow(changeType: string, version: nat, row: Row)

  datatype Change = Change(deletes: bool, row: Row)

  // ---- From feed rows to changes ----

  /** Preimages and rows without the key are dropped; everything but a delete is an upsert. */
  function ToChange(r: CdfRow, pk: string): seq<Change> {
    if r.changeType == "update_preimage" || pk !in r.row then []
    else [Change(r.changeType == "delete", r.row)]
  }

  function Changes(rows: seq<CdfRow>, pk: string): (cs: seq<Change>)
    ensures forall c | c in cs :: pk in c.row
  {
    if rows == [] then []
    else Changes(rows[..|rows| - 1], pk) + ToChange(rows[|rows| - 1], pk)
  }

  /** Puts `r` after every row whose version is not greater. */
  function Insert(sorted: seq<CdfRow>, r: CdfRow): seq<CdfRow> {
    if sorted == [] || sorted[|sorted| - 1].version <= r.version then sorted + [r]
    else Insert(sorted[..|sorted| - 1], r) + [sorted[|sorted| - 1]]
  }

  /** Stable sort by commit version. */
  function SortByVersion(rows: seq<CdfRow>): seq<CdfRow> {
    if rows == [] then [] else Insert(SortByVersion(rows[..|rows| - 1]), rows[|rows| - 1])
  }

  /** The dictionary of net changes: keys in first-seen order, each with its latest change. */
  datatype Net = Net(order: seq<Cell>, latest: map<Cell, Change>) {
    function Add(c: Change, pk: string): Net
      requires pk in c.row
    {
      var k := c.row[pk];
      Net(if k in latest then order else order + [k], latest[k := c])
    }

    ghost predicate Valid() {
      && (forall k :: k in order <==> k in latest)
      && (forall i, j | 0 <= i < j < |order| :: order[i] != order[j])
    }

    function Values(): seq<Change>
      requires Valid()
    {
      seq(|order|, i requires 0 <= i < |order| => assert order[i] in order; latest[order[i]])
    }
  }

  function NetOf(cs: seq<Change>, pk: string): (n: Net)
    requires forall c | c in cs :: pk in c.row
    ensures n.Valid()
    ensures forall k | k in n.latest :: pk in n.latest[k].row && n.latest[k].row[pk] == k
  {
    if cs == [] then Net([], map[])
    else
      var prior := NetOf(cs[..|cs| - 1], pk);
      var n := prior.Add(cs[|cs| - 1], pk);
      assert forall k :: k in n.order <==> k in prior.order || k == cs[|cs| - 1].row[pk];
      n
  }

  function NetChanges(cs: seq<Change>, pk: string): (net: seq<Change>)
    requires forall c | c in cs :: pk in c.row
    ensures forall c | c in net :: pk in c.row
  {
    NetOf(cs, pk).Values()
  }

  // ---- Applying changes ----

  function Apply(t: Rows, c: Change, schema: Schema): Rows
    requires schema.Valid() && schema.pk in c.row
  {
    if c.deletes then t - {c.row[schema.pk]} else Upsert(t, Project(c.row, schema), schema)
  }

  function ApplyAll(t: Rows, cs: seq<Change>, schema: Schema): Rows
    requires schema.Valid() && forall c | c in cs :: schema.pk in c.row
  {
    if cs == [] then t else Apply(ApplyAll(t, cs[..|cs| - 1], schema), cs[|cs| - 1], schema)
  }

  function ChangeKey(pk: string): Change -> Option<Cell> {
    (c: Change) => if pk in c.row then Some(c.row[pk]) else None
  }

  function ApplyToRow(existing: Option<Row>, c: Change, schema: Schema): Option<Row> {
    if c.deletes then None else Some(Merged(existing, Project(c.row, schema), schema))
  }

  function Fold(existing: Option<Row>, cs: seq<Change>, schema: Schema): Option<Row> {
    if cs == [] then existing else ApplyToRow(Fold(existing, cs[..|cs| - 1], schema), cs[|cs| - 1], schema)
  }

  lemma ApplyAt(t: Rows, c: Change, schema: Schema, k: Cell)
    requires schema.Valid() && schema.pk in c.row
    ensures Lookup(Apply(t, c, schema), k) ==
      if c.row[schema.pk] == k then ApplyToRow(Lookup(t, k), c, schema) else Lookup(t, k)
  {
  }

  lemma FoldSnoc(existing: Option<Row>, cs: seq<Change>, c: Change, schema: Schema)
    ensures Fold(existing, cs + [c], schema) == ApplyToRow(Fold(existing, cs, schema), c, schema)
  {
    assert (cs + [c])[..|cs + [c]| - 1] == cs;
  }

  /** Changes of distinct keys commute: a row depends on the changes of its own key only. */
  lemma {:induction false} ApplyPointwise(t: Rows, cs: seq<Change>, schema: Schema, k: Cell)
    requires schema.Valid() && forall c | c in cs :: schema.pk in c.row
    ensures Lookup(ApplyAll(t, cs, schema), k) == Fold(Lookup(t, k), OfKey(cs, ChangeKey(schema.pk), k), schema)
    decreases |cs|
  {
    if cs != [] {
      ApplyPointwise(t, cs[..|cs| - 1], schema, k);
      var c, prior := cs[|cs| - 1], OfKey(cs[..|cs| - 1], ChangeKey(schema.pk), k);
      assert c in cs;
      ApplyAt(ApplyAll(t, cs[..|cs| - 1], schema), c, schema, k);
      if c.row[schema.pk] == k {
        FoldSnoc(Lookup(t, k), prior, c, schema);
      } else {
        assert prior + [] == prior;
      }
    }
  }

  function Last(cs: seq<Change>): seq<Change> {
    if cs == [] then [] else [cs[|cs| - 1]]
  }

  lemma {:induction false} LatestIsLast(cs: seq<Change>, pk: string, k: Cell)
    requires forall c | c in cs :: pk in c.row
    ensures var own := OfKey(cs, ChangeKey(pk), k); var latest := NetOf(cs, pk).latest;
      (k in latest <==> own != []) && (own != [] ==> latest[k] == own[|own| - 1])
    decreases |cs|
  {
    if cs != [] {
      hide *;
      LatestStep(cs, pk, k);
      LatestIsLast(cs[..|cs| - 1], pk, k);
    }
  }

  /** How the last change moves the dictionary and the key's own changes. */
  lemma LatestStep(cs: seq<Change>, pk: string, k: Cell)
    requires cs != [] && forall c | c in cs :: pk in c.row
    ensures var init, c := cs[..|cs| - 1], cs[|cs| - 1];
      && (forall x | x in init :: pk in x.row) && pk in c.row
      && NetOf(cs, pk).latest == NetOf(init, pk).latest[c.row[pk] := c]
      && OfKey(cs, ChangeKey(pk), k) == OfKey(init, ChangeKey(pk), k) + if c.row[pk] == k then [c] else []
  {
    hide OfKey;
    var init, c := cs[..|cs| - 1], cs[|cs| - 1];
    assert c in cs && forall x | x in init :: x in cs;
    OfKeySnoc(init, c, pk, k);
    assert init + [c] == cs;
  }

  lemma OfKeySnoc(init: seq<Change>, c: Change, pk: string, k: Cell)
    ensures OfKey(init + [c], ChangeKey(pk), k) ==
      OfKey(init, ChangeKey(pk), k) + if pk in c.row && c.row[pk] == k then [c] else []
  {
    assert (init + [c])[..|init + [c]| - 1] == init;
  }

  lemma {:induction false} OfKeyAt(cs: seq<Change>, pk: string, k: Cell, i: nat)
    requires i < |cs| && forall j | 0 <= j < |cs| :: pk in cs[j].row && (cs[j].row[pk] == k <==> j == i)
    ensures OfKey(cs, ChangeKey(pk), k) == [cs[i]]
    decreases |cs|
  {
    if i == |cs| - 1 {
      OfKeyNone(cs[..|cs| - 1], pk, k);
    } else {
      OfKeyAt(cs[..|cs| - 1], pk, k, i);
    }
  }

  lemma {:induction false} OfKeyNone(cs: seq<Change>, pk: string, k: Cell)
    requires forall c | c in cs :: pk !in c.row || c.row[pk] != k
    ensures OfKey(cs, ChangeKey(pk), k) == []
    decreases |cs|
  {
    if cs != [] {
      OfKeyNone(cs[..|cs| - 1], pk, k);
    }
  }

  lemma ValuesKeyed(n: Net, pk: string)
    requires n.Valid() && forall k | k in n.latest :: pk in n.latest[k].row && n.latest[k].row[pk] == k
    ensures forall j | 0 <= j < |n.order| ::
      n.order[j] in n.latest && n.Values()[j] == n.latest[n.order[j]]
      && pk in n.Values()[j].row && n.Values()[j].row[pk] == n.order[j]
  {
    forall j | 0 <= j < |n.order|
      ensures n.order[j] in n.latest
    {
      assert n.order[j] in n.order;
    }
  }

  /** The collapse keeps exactly the last change of every key. */
  lemma NetIsLast(cs: seq<Change>, pk: string, k: Cell)
    requires forall c | c in cs :: pk in c.row
    ensures OfKey(NetChanges(cs, pk), ChangeKey(pk), k) == Last(OfKey(cs, ChangeKey(pk), k))
  {
    hide OfKey;
    var n := NetOf(cs, pk);
    LatestIsLast(cs, pk, k);
    ValuesKeyed(n, pk);
    if k in n.latest {
      assert k in n.order;
      var i :| 0 <= i < |n.order| && n.order[i] == k;
      OfKeyAt(n.Values(), pk, k, i);
    } else {
      OfKeyNone(n.Values(), pk, k);
    }
  }

  // ---- Agreement on the inbox columns ----

  ghost predicate Agree(a: Option<Row>, b: Option<Row>, columns: set<string>) {
    match (a, b)
    case (None, None) => true
    case (Some(x), Some(y)) => columns <= x.Keys && columns <= y.Keys && forall c | c in columns :: x[c] == y[c]
    case _ => false
  }

  /** Every inbox row has the inbox columns, and its table columns are among them. */
  ghost predicate Covers(cs: seq<Change>, schema: Schema, columns: set<string>) {
    && schema.pk in columns && columns <= schema.columns
    && forall c | c in cs :: Project(c.row, schema).Keys == columns && schema.pk in c.row
  }

  lemma {:induction false} FoldStored(existing: Option<Row>, cs: seq<Change>, schema: Schema, k: Cell)
    requires schema.Valid() && Stored(existing, schema, k)
    requires forall c | c in cs :: schema.pk in c.row && c.row[schema.pk] == k
    ensures Stored(Fold(existing, cs, schema), schema, k)
    decreases |cs|
  {
    if cs != [] {
      FoldStored(existing, cs[..|cs| - 1], schema, k);
      assert cs[|cs| - 1] in cs;
    }
  }

  /** What the last change of a key leaves on the inbox columns, whatever was there before. */
  lemma LastDecides(existing: Option<Row>, cs: seq<Change>, schema: Schema, columns: set<string>, k: Cell)
    requires schema.Valid() && Stored(existing, schema, k)
    requires cs != [] && Covers(cs, schema, columns) && forall c | c in cs :: c.row[schema.pk] == k
    ensures Agree(Fold(existing, cs, schema), Fold(None, Last(cs), schema), columns)
  {
    var init, c := cs[..|cs| - 1], cs[|cs| - 1];
    assert c in cs;
    FoldStored(existing, init, schema, k);
    assert Fold(None, Last(cs), schema) == ApplyToRow(None, c, schema) by {
      assert Last(cs)[..0] == [];
    }
  }

  lemma AgreeOnSameLast(a: Option<Row>, b: Option<Row>, xs: seq<Change>, ys: seq<Change>, schema: Schema,
                        columns: set<string>, k: Cell)
    requires schema.Valid() && Stored(a, schema, k) && Stored(b, schema, k)
    requires xs != [] && ys != [] && Last(xs) == Last(ys)
    requires Covers(xs, schema, columns) && forall c | c in xs :: c.row[schema.pk] == k
    requires Covers(ys, schema, columns) && forall c | c in ys :: c.row[schema.pk] == k
    ensures Agree(Fold(a, xs, schema), Fold(b, ys, schema), columns)
  {
    hide Covers, Fold;
    LastDecides(a, xs, schema, columns, k);
    LastDecides(b, ys, schema, columns, k);
  }

  lemma OfKeyCovers(cs: seq<Change>, schema: Schema, columns: set<string>, k: Cell)
    requires Covers(cs, schema, columns)
    ensures Covers(OfKey(cs, ChangeKey(schema.pk), k), schema, columns)
    ensures forall c | c in OfKey(cs, ChangeKey(schema.pk), k) :: c.row[schema.pk] == k
  {
    OfKeyIn(cs, ChangeKey(schema.pk), k);
  }

  lemma AgreeReflexive(a: Option<Row>, schema: Schema, columns: set<string>, k: Cell)
    requires Stored(a, schema, k) && columns <= schema.columns
    ensures Agree(a, a, columns)
  {
  }

  lemma NetCovers(cs: seq<Change>, schema: Schema, columns: set<string>)
    requires Covers(cs, schema, columns)
    ensures Covers(NetChanges(cs, schema.pk), schema, columns)
  {
    var n := NetOf(cs, schema.pk);
    forall c | c in NetChanges(cs, schema.pk)
      ensures c in cs
    {
      var j :| 0 <= j < |n.order| && n.Values()[j] == c;
      assert n.order[j] in n.order;
      LatestIsLast(cs, schema.pk, n.order[j]);
      OfKeyIn(cs, ChangeKey(schema.pk), n.order[j]);
    }
  }

  /** The collapse refines replay: on the inbox columns, always. */
  lemma CollapseRefinesReplay(t: Rows, cs: seq<Change>, schema: Schema, columns: set<string>, k: Cell)
    requires schema.Valid() && WellFormed(t, schema) && Covers(cs, schema, columns)
    ensures Agree(Lookup(ApplyAll(t, NetChanges(cs, schema.pk), schema), k),
                  Lookup(ApplyAll(t, cs, schema), k), columns)
  {
    hide Covers, Fold, WellFormed, Stored, OfKey, Agree;
    assert forall c | c in cs :: schema.pk in c.row by { CoversKeyed(cs, schema, columns); }
    var net := NetChanges(cs, schema.pk);
    ApplyPointwise(t, cs, schema, k);
    ApplyPointwise(t, net, schema, k);
    NetIsLast(cs, schema.pk, k);
    OfKeyCovers(cs, schema, columns, k);
    NetCovers(cs, schema, columns);
    OfKeyCovers(net, schema, columns, k);
    LookupStored(t, schema, k);
    var own := OfKey(cs, ChangeKey(schema.pk), k);
    if own == [] {
      CoversKeyed(cs, schema, columns);
      AgreeReflexive(Lookup(t, k), schema, columns, k);
      assert Fold(Lookup(t, k), [], schema) == Lookup(t, k) by { FoldNothing(Lookup(t, k), schema); }
    } else {
      AgreeOnSameLast(Lookup(t, k), Lookup(t, k), Last(own), own, schema, columns, k);
    }
  }

  lemma FoldNothing(existing: Option<Row>, schema: Schema)
    ensures Fold(existing, [], schema) == existing
  {
  }

  lemma CoversKeyed(cs: seq<Change>, schema: Schema, columns: set<string>)
    requires Covers(cs, schema, columns)
    ensures columns <= schema.columns && forall c | c in cs :: schema.pk in c.row
  {
  }

  // ---- When the collapse equals replay on every column ----

  predicate Deleted(cs: seq<Change>) {
    exists i | 0 <= i < |cs| :: cs[i].deletes
  }

  /** The columns outside the inbox: defaults after a delete or on a new row, untouched otherwise. */
  lemma {:induction false} OmittedColumns(existing: Option<Row>, cs: seq<Change>, schema: Schema, columns: set<string>,
                                          k: Cell, column: string)
    requires schema.Valid() && Stored(existing, schema, k) && Covers(cs, schema, columns)
    requires forall c | c in cs :: c.row[schema.pk] == k
    requires column in schema.columns - columns && Fold(existing, cs, schema).Some?
    ensures column in Fold(existing, cs, schema).value
    ensures Fold(existing, cs, schema).value[column] ==
      if existing == None || Deleted(cs) then schema.defaults[column] else existing.value[column]
    decreases |cs|
  {
    if cs != [] {
      var init, c := cs[..|cs| - 1], cs[|cs| - 1];
      assert c in cs && (forall x | x in init :: x in cs);
      FoldStored(existing, init, schema, k);
      assert column !in Project(c.row, schema);
      assert Deleted(cs) <==> Deleted(init) || c.deletes by {
        assert forall i | 0 <= i < |init| :: init[i] == cs[i];
      }
      if Fold(existing, init, schema).Some? {
        OmittedColumns(existing, init, schema, columns, k, column);
      } else {
        NoneMeansDeleted(existing, init, schema);
      }
    }
  }

  lemma {:induction false} NoneMeansDeleted(existing: Option<Row>, cs: seq<Change>, schema: Schema)
    requires Fold(existing, cs, schema) == None
    ensures existing == None || Deleted(cs)
    decreases |cs|
  {
    if cs != [] {
      assert cs[|cs| - 1].deletes;
    }
  }

  /** A key is revived with a stale column: deleted, then upserted, over a row with omitted columns not at default. */
  ghost predicate Revived(t: Rows, cs: seq<Change>, schema: Schema, columns: set<string>, k: Cell) {
    var own := OfKey(cs, ChangeKey(schema.pk), k);
    && k in t && own != [] && !own[|own| - 1].deletes && Deleted(own)
    && exists column | column in schema.columns - columns ::
         column in t[k] && column in schema.defaults && t[k][column] != schema.defaults[column]
  }

  lemma CollapseExactAt(t: Rows, cs: seq<Change>, schema: Schema, columns: set<string>, k: Cell)
    requires schema.Valid() && WellFormed(t, schema) && Covers(cs, schema, columns)
    ensures Lookup(ApplyAll(t, NetChanges(cs, schema.pk), schema), k) == Lookup(ApplyAll(t, cs, schema), k) <==>
      !Revived(t, cs, schema, columns, k)
  {
    hide OfKey, NetChanges, Covers;
    CoversKeyed(cs, schema, columns);
    var net := NetChanges(cs, schema.pk);
    ApplyPointwise(t, cs, schema, k);
    ApplyPointwise(t, net, schema, k);
    NetIsLast(cs, schema.pk, k);
    OfKeyCovers(cs, schema, columns, k);
    NetCovers(cs, schema, columns);
    OfKeyCovers(net, schema, columns, k);
    LookupStored(t, schema, k);
    CollapseRefinesReplay(t, cs, schema, columns, k);
    RowsEqualWhen(Lookup(t, k), OfKey(cs, ChangeKey(schema.pk), k), schema, columns, k);
  }

  lemma RowsEqualWhen(existing: Option<Row>, own: seq<Change>, schema: Schema, columns: set<string>, k: Cell)
    requires schema.Valid() && Stored(existing, schema, k) && Covers(own, schema, columns)
    requires forall c | c in own :: c.row[schema.pk] == k
    requires Agree(Fold(existing, Last(own), schema), Fold(existing, own, schema), columns)
    ensures Fold(existing, Last(own), schema) == Fold(existing, own, schema) <==>
      !(existing.Some? && own != [] && !own[|own| - 1].deletes && Deleted(own)
        && exists column | column in schema.columns - columns ::
          column in existing.value && column in schema.defaults && existing.value[column] != schema.defaults[column])
  {
    hide Fold, Covers, Deleted;
    var a, b := Fold(existing, Last(own), schema), Fold(existing, own, schema);
    LastCovers(own, schema, columns);
    FoldStored(existing, own, schema, k);
    FoldStored(existing, Last(own), schema, k);
    if own == [] {
    } else if own[|own| - 1].deletes {
      DeleteEnds(existing, own, schema);
      DeleteEnds(existing, Last(own), schema);
    } else {
      UpsertEnds(existing, own, schema);
      UpsertEnds(existing, Last(own), schema);
      assert !Deleted(Last(own)) by { SingleUpsert(own); }
      forall column | column in schema.columns - columns
        ensures column in a.value && column in b.value
        ensures a.value[column] == if existing == None then schema.defaults[column] else existing.value[column]
        ensures b.value[column] ==
          if existing == None || Deleted(own) then schema.defaults[column] else existing.value[column]
      {
        OmittedColumns(existing, own, schema, columns, k, column);
        OmittedColumns(existing, Last(own), schema, columns, k, column);
      }
      assert a.value == b.value <==>
        forall column | column in schema.columns - columns :: a.value[column] == b.value[column] by {
        assert a.value.Keys == schema.columns && b.value.Keys == schema.columns;
        assert forall column | column in columns :: a.value[column] == b.value[column];
      }
    }
  }

  /** Net changes and full replay give the same table exactly when no key is revived with a stale column. */
  lemma CollapseExact(t: Rows, cs: seq<Change>, schema: Schema, columns: set<string>)
    requires schema.Valid() && WellFormed(t, schema) && Covers(cs, schema, columns)
    ensures ApplyAll(t, NetChanges(cs, schema.pk), schema) == ApplyAll(t, cs, schema) <==>
      forall k :: !Revived(t, cs, schema, columns, k)
  {
    hide Covers, ApplyAll, Revived, WellFormed;
    CoversKeyed(cs, schema, columns);
    forall k
      ensures Lookup(ApplyAll(t, NetChanges(cs, schema.pk), schema), k) == Lookup(ApplyAll(t, cs, schema), k) <==>
        !Revived(t, cs, schema, columns, k)
    {
      CollapseExactAt(t, cs, schema, columns, k);
    }
    SameTable(ApplyAll(t, NetChanges(cs, schema.pk), schema), ApplyAll(t, cs, schema));
  }

  lemma SameTable(a: Rows, b: Rows)
    ensures a == b <==> forall k :: Lookup(a, k) == Lookup(b, k)
  {
    if forall k :: Lookup(a, k) == Lookup(b, k) {
      forall k
        ensures k in a <==> k in b
        ensures k in a ==> a[k] == b[k]
      {
        assert Lookup(a, k) == Lookup(b, k);
      }
    }
  }

  lemma LastCovers(own: seq<Change>, schema: Schema, columns: set<string>)
    requires Covers(own, schema, columns)
    ensures Covers(Last(own), schema, columns) && forall c | c in Last(own) :: c in own
    ensures columns <= schema.columns && forall c | c in own :: schema.pk in c.row
  {
  }

  lemma SingleUpsert(own: seq<Change>)
    requires own != [] && !own[|own| - 1].deletes
    ensures !Deleted(Last(own))
  {
  }

  lemma DeleteEnds(existing: Option<Row>, cs: seq<Change>, schema: Schema)
    requires cs != [] && cs[|cs| - 1].deletes
    ensures Fold(existing, cs, schema) == None
  {
  }

  lemma UpsertEnds(existing: Option<Row>, cs: seq<Change>, schema: Schema)
    requires cs != [] && !cs[|cs| - 1].deletes
    ensures Fold(existing, cs, schema).Some?
  {
  }

  lemma NetOfTwo(a: Change, b: Change, pk: string)
    requires pk in a.row && pk in b.row && a.row[pk] == b.row[pk]
    ensures NetChanges([a, b], pk) == [b]
  {
    assert [a, b][..1] == [a] && [a][..0] == [] && NetOf([], pk) == Net([], map[]);
    assert NetOf([a], pk) == Net([a.row[pk]], map[a.row[pk] := a]);
    assert NetOf([a, b], pk).order == [b.row[pk]];
  }

  lemma ApplyOne(t: Rows, row: Row, schema: Schema)
    requires schema.Valid() && schema.pk in row
    ensures ApplyAll(t, [Change(false, row)], schema) == Upsert(t, Project(row, schema), schema)
  {
    var cs := [Change(false, row)];
    assert cs[..0] == [] && ApplyAll(t, [], schema) == t;
    assert cs[|cs| - 1] == Change(false, row);
  }

  /** A row deleted and inserted again without a column: the collapse keeps the old value, replay the default. */
  lemma StaleColumnKept(t: Rows, row: Row, schema: Schema, column: string)
    requires schema.Valid() && WellFormed(t, schema) && schema.pk in row && row[schema.pk] in t
    requires column in schema.columns && column !in row
    ensures var cs, k := [Change(true, row), Change(false, row)], row[schema.pk];
      var net, replayed := ApplyAll(t, NetChanges(cs, schema.pk), schema), ApplyAll(t, cs, schema);
      && k in net && column in net[k] && net[k][column] == t[k][column]
      && k in replayed && column in replayed[k] && replayed[k][column] == schema.defaults[column]
  {
    hide ApplyAll;
    var cs, k := [Change(true, row), Change(false, row)], row[schema.pk];
    NetOfTwo(cs[0], cs[1], schema.pk);
    ApplyOne(t, row, schema);
    DeleteInsert(t, row, schema);
  }

  lemma DeleteInsert(t: Rows, row: Row, schema: Schema)
    requires schema.Valid() && schema.pk in row
    ensures ApplyAll(t, [Change(true, row), Change(false, row)], schema) ==
      Upsert(t - {row[schema.pk]}, Project(row, schema), schema)
  {
    hide Upsert;
    var cs := [Change(true, row), Change(false, row)];
    assert cs[..1] == [Change(true, row)] && cs[..1][..0] == [];
    assert ApplyAll(t, [], schema) == t;
    assert ApplyAll(t, cs[..1], schema) == t - {row[schema.pk]};
  }

  /** Keys are listed in the order first seen: more changes only add keys behind, and each key once. */
  lemma {:induction false} NetOrderGrows(cs: seq<Change>, n: nat, pk: string)
    requires n <= |cs| && forall c | c in cs :: pk in c.row
    ensures (forall c | c in cs[..n] :: pk in c.row) && NetOf(cs[..n], pk).order <= NetOf(cs, pk).order
    ensures forall k :: k in NetOf(cs, pk).order <==> exists c | c in cs :: c.row[pk] == k
    decreases |cs|
  {
    if n == |cs| {
      assert cs[..n] == cs;
    }
    if cs != [] {
      var init, c := cs[..|cs| - 1], cs[|cs| - 1];
      assert cs == init + [c] && forall x | x in init :: x in cs;
      if n < |cs| {
        assert init[..n] == cs[..n];
        NetOrderGrows(init, n, pk);
      } else {
        NetOrderGrows(init, 0, pk);
      }
    }
  }
}
