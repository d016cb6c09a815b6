/** The inbox watcher over whole runs: commits, reads, applies, saves and crashes. */
module InboxMirror {
  import opened Wrappers
  import opened Transform
  import opened Postgres
  import opened Sequences
  import opened Inbox

  /** The inbox's commits; the index of a commit is its version. */
  type Log = seq<seq<CdfRow>>

  predicate Versioned(log: Log) {
    forall v, r | 0 <= v < |log| && r in log[v] :: r.version == v
  }

  /** The change rows of versions `lo` up to `hi`, in commit order. */
  function Commits(log: Log, lo: nat, hi: nat): seq<CdfRow>
    requires hi <= |log|
  {
    if hi <= lo then [] else Commits(log, lo, hi - 1) + log[hi - 1]
  }

  function ByVersion(r: CdfRow): Option<nat> { Some(r.version) }

  /** A change-feed read of a range: its commits in any interleaving that keeps each commit's own order. */
  ghost predicate IsCdf(cdf: seq<CdfRow>, log: Log, lo: nat, hi: nat) {
    hi <= |log| && forall v: nat :: OfKey(cdf, ByVersion, v) == if lo <= v < hi then log[v] else []
  }

  // ---- Stable sorting restores the commit order ----

  predicate Ordered(rows: seq<CdfRow>) {
    forall i, j | 0 <= i < j < |rows| :: rows[i].version <= rows[j].version
  }

  lemma {:induction false} InsertOrdered(sorted: seq<CdfRow>, r: CdfRow)
    requires Ordered(sorted)
    ensures Ordered(Insert(sorted, r))
    ensures forall x | x in Insert(sorted, r) :: x == r || x in sorted
    decreases |sorted|
  {
    if sorted != [] && sorted[|sorted| - 1].version > r.version {
      var init, last := sorted[..|sorted| - 1], sorted[|sorted| - 1];
      InsertOrdered(init, r);
      var grown := Insert(init, r);
      forall i | 0 <= i < |grown|
        ensures grown[i].version <= last.version
      {
        assert grown[i] in grown;
      }
    }
  }

  lemma {:induction false} InsertOfVersion(sorted: seq<CdfRow>, r: CdfRow, v: nat)
    ensures OfKey(Insert(sorted, r), ByVersion, v) == OfKey(sorted, ByVersion, v) + OfKey([r], ByVersion, v)
    decreases |sorted|
  {
    hide OfKey;
    if sorted == [] || sorted[|sorted| - 1].version <= r.version {
      OfKeyConcat(sorted, [r], ByVersion, v);
    } else {
      var init, last := sorted[..|sorted| - 1], sorted[|sorted| - 1];
      InsertOfVersion(init, r, v);
      OfKeyConcat(Insert(init, r), [last], ByVersion, v);
      OfKeyConcat(init, [last], ByVersion, v);
      assert init + [last] == sorted;
      SingleVersion(r, v);
      SingleVersion(last, v);
    }
  }

  lemma SingleVersion(r: CdfRow, v: nat)
    ensures OfKey([r], ByVersion, v) == if r.version == v then [r] else []
  {
    assert OfKey([r][..0], ByVersion, v) == [];
  }

  lemma {:induction false} SortOrdered(rows: seq<CdfRow>)
    ensures Ordered(SortByVersion(rows))
    decreases |rows|
  {
    if rows != [] {
      hide Insert, Ordered;
      SortOrdered(rows[..|rows| - 1]);
      InsertOrdered(SortByVersion(rows[..|rows| - 1]), rows[|rows| - 1]);
    }
  }

  lemma {:induction false} SortKeeps(rows: seq<CdfRow>, v: nat)
    ensures OfKey(SortByVersion(rows), ByVersion, v) == OfKey(rows, ByVersion, v)
    decreases |rows|
  {
    if rows != [] {
      hide OfKey, Insert;
      var init, r := rows[..|rows| - 1], rows[|rows| - 1];
      SortKeeps(init, v);
      assert OfKey(SortByVersion(rows), ByVersion, v) ==
        OfKey(SortByVersion(init), ByVersion, v) + OfKey([r], ByVersion, v) by {
        InsertOfVersion(SortByVersion(init), r, v);
      }
      assert OfKey(rows, ByVersion, v) == OfKey(init, ByVersion, v) + OfKey([r], ByVersion, v) by {
        OfKeyConcat(init, [r], ByVersion, v);
        assert init + [r] == rows;
      }
    }
  }

  /** Two version-ordered sequences with the same rows in every version are equal. */
  lemma {:induction false} OrderedUnique(a: seq<CdfRow>, b: seq<CdfRow>)
    requires Ordered(a) && Ordered(b) && forall v: nat :: OfKey(a, ByVersion, v) == OfKey(b, ByVersion, v)
    ensures a == b
    decreases |a|
  {
    hide Ordered, OfKey;
    if a == [] || b == [] {
      BothEmpty(a, b);
    } else {
      assert Ordered(a[..|a| - 1]) && Ordered(b[..|b| - 1]) by {
        OrderedFront(a);
        OrderedFront(b);
      }
      var x, y := a[|a| - 1], b[|b| - 1];
      var a', b' := a[..|a| - 1], b[..|b| - 1];
      SameLast(a, b);
      forall v: nat
        ensures OfKey(a', ByVersion, v) == OfKey(b', ByVersion, v)
      {
        assert OfKey(a, ByVersion, v) == OfKey(b, ByVersion, v);
        assert a == a' + [x] && b == b' + [y];
        OfKeyConcat(a', [x], ByVersion, v);
        OfKeyConcat(b', [y], ByVersion, v);
        Cancel(OfKey(a', ByVersion, v), OfKey(b', ByVersion, v), OfKey([x], ByVersion, v));
      }
      OrderedUnique(a', b');
      assert a == a' + [x] && b == b' + [y];
    }
  }

  lemma OrderedFront(a: seq<CdfRow>)
    requires Ordered(a) && a != []
    ensures Ordered(a[..|a| - 1])
  {
  }

  lemma BothEmpty(a: seq<CdfRow>, b: seq<CdfRow>)
    requires (a == [] || b == []) && forall v: nat :: OfKey(a, ByVersion, v) == OfKey(b, ByVersion, v)
    ensures a == b
  {
    if a != [] {
      SomeOfVersion(a);
    } else if b != [] {
      SomeOfVersion(b);
    }
  }

  lemma SomeOfVersion(rows: seq<CdfRow>)
    requires rows != []
    ensures OfKey(rows, ByVersion, rows[0].version) != []
  {
    OfKeyIn(rows, ByVersion, rows[0].version);
    assert rows[0] in rows && ByVersion(rows[0]) == Some(rows[0].version);
    assert rows[0] in OfKey(rows, ByVersion, rows[0].version);
  }

  lemma Cancel(a: seq<CdfRow>, b: seq<CdfRow>, tail: seq<CdfRow>)
    requires a + tail == b + tail
    ensures a == b
  {
    assert a == (a + tail)[..|a|] && b == (b + tail)[..|b|];
  }

  lemma LastBounds(a: seq<CdfRow>, r: CdfRow)
    requires Ordered(a) && a != [] && r in a
    ensures r.version <= a[|a| - 1].version
  {
  }

  lemma LastOfVersion(a: seq<CdfRow>)
    requires a != []
    ensures var own := OfKey(a, ByVersion, a[|a| - 1].version); own != [] && own[|own| - 1] == a[|a| - 1]
  {
  }

  lemma SameLast(a: seq<CdfRow>, b: seq<CdfRow>)
    requires Ordered(a) && Ordered(b) && a != [] && b != []
    requires forall v: nat :: OfKey(a, ByVersion, v) == OfKey(b, ByVersion, v)
    ensures a[|a| - 1] == b[|b| - 1]
  {
    hide OfKey, Ordered;
    var x, y := a[|a| - 1], b[|b| - 1];
    OfKeyIn(a, ByVersion, y.version);
    OfKeyIn(b, ByVersion, x.version);
    LastOfVersion(a);
    LastOfVersion(b);
    assert x in OfKey(b, ByVersion, x.version) && y in OfKey(a, ByVersion, y.version);
    LastBounds(b, x);
    LastBounds(a, y);
  }

  lemma OrderedJoin(a: seq<CdfRow>, b: seq<CdfRow>, v: nat)
    requires Ordered(a) && forall r | r in a :: r.version < v
    requires forall r | r in b :: r.version == v
    ensures Ordered(a + b) && forall r | r in a + b :: r in a || r in b
  {
    forall i, j | 0 <= i < j < |a + b|
      ensures (a + b)[i].version <= (a + b)[j].version
    {
      assert i < |a| ==> a[i] in a;
      assert i >= |a| ==> b[i - |a|] in b;
      assert j >= |a| ==> b[j - |a|] in b;
    }
  }

  lemma {:induction false} CommitsOrdered(log: Log, lo: nat, hi: nat)
    requires hi <= |log| && Versioned(log)
    ensures Ordered(Commits(log, lo, hi)) && forall r | r in Commits(log, lo, hi) :: lo <= r.version < hi
    decreases hi
  {
    if lo < hi {
      hide Ordered;
      CommitsOrdered(log, lo, hi - 1);
      OrderedJoin(Commits(log, lo, hi - 1), log[hi - 1], hi - 1);
    } else {
      assert Ordered([]);
    }
  }

  lemma {:induction false} CommitsOfVersion(log: Log, lo: nat, hi: nat, v: nat)
    requires hi <= |log| && Versioned(log)
    ensures OfKey(Commits(log, lo, hi), ByVersion, v) == if lo <= v < hi then log[v] else []
    decreases hi
  {
    hide OfKey, Versioned;
    if lo < hi {
      CommitsOfVersion(log, lo, hi - 1, v);
      var before, last := Commits(log, lo, hi - 1), log[hi - 1];
      OfKeyConcat(before, last, ByVersion, v);
      LastCommit(log, hi - 1, v);
      assert OfKey(before, ByVersion, v) + [] == OfKey(before, ByVersion, v);
    } else {
      NoCommit(v);
    }
  }

  lemma NoCommit(v: nat)
    ensures OfKey([], ByVersion, v) == []
  {
  }

  lemma LastCommit(log: Log, own: nat, v: nat)
    requires own < |log| && Versioned(log)
    ensures OfKey(log[own], ByVersion, v) == if v == own then log[own] else []
  {
    hide OfKey;
    OneCommit(log[own], own, v);
  }

  lemma {:induction false} OneCommit(rows: seq<CdfRow>, own: nat, v: nat)
    requires forall r | r in rows :: r.version == own
    ensures OfKey(rows, ByVersion, v) == if v == own then rows else []
    decreases |rows|
  {
    if rows != [] {
      OneCommit(rows[..|rows| - 1], own, v);
      assert rows == rows[..|rows| - 1] + [rows[|rows| - 1]];
    }
  }

  /** However the feed interleaves its commits, the stable sort gives the commit order back. */
  lemma SortedIsCommitOrder(cdf: seq<CdfRow>, log: Log, lo: nat, hi: nat)
    requires Versioned(log) && IsCdf(cdf, log, lo, hi)
    ensures SortByVersion(cdf) == Commits(log, lo, hi)
  {
    forall v: nat
      ensures OfKey(SortByVersion(cdf), ByVersion, v) == OfKey(Commits(log, lo, hi), ByVersion, v)
    {
      SortKeeps(cdf, v);
      CommitsOfVersion(log, lo, hi, v);
    }
    SortOrdered(cdf);
    CommitsOrdered(log, lo, hi);
    OrderedUnique(SortByVersion(cdf), Commits(log, lo, hi));
  }

  // ---- The watcher ----

  datatype Phase =
    | Idle
    | Opened(current: int)
    | Loaded(current: int, changes: seq<Change>)
    | Sent(current: int)

  /** The inbox, the Postgres table, the saved version, and where the watcher is in its cycle. */
  datatype Mirror = Mirror(log: Log, rows: Rows, saved: int, phase: Phase)

  /** How the apply request ends: committed, rolled back, or committed with the reply lost. */
  datatype Reply = Accepted | Refused | Unheard

  datatype Event =
    | Write(commit: seq<CdfRow>)
    | Open
    | Load(end: nat, cdf: seq<CdfRow>)
    | Post(reply: Reply)
    | Save(works: bool)
    | Crash

  function NetOfRead(cdf: seq<CdfRow>, pk: string): (net: seq<Change>)
    ensures forall c | c in net :: pk in c.row
  {
    NetChanges(Changes(SortByVersion(cdf), pk), pk)
  }

  /** An apply request with a change that lacks the key is refused as a whole. */
  predicate Keyed(cs: seq<Change>, pk: string) {
    forall c | c in cs :: pk in c.row
  }

  ghost function Step(s: Mirror, ev: Event, schema: Schema): Mirror
    requires schema.Valid()
  {
    match ev
    case Write(commit) =>
      if forall r | r in commit :: r.version == |s.log| then s.(log := s.log + [commit]) else s
    case Open =>
      if s.phase.Idle? && |s.log| - 1 > s.saved then s.(phase := Opened(|s.log| - 1)) else s
    case Load(end, cdf) =>
      if s.phase.Opened? && -1 <= s.saved && s.phase.current < end <= |s.log| && IsCdf(cdf, s.log, s.saved + 1, end)
      then s.(phase := Loaded(s.phase.current, NetOfRead(cdf, schema.pk))) else s
    case Post(reply) =>
      if !s.phase.Loaded? then s
      else if s.phase.changes == [] then s.(phase := Sent(s.phase.current))
      else if !Keyed(s.phase.changes, schema.pk) then s.(phase := Idle)
      else
        (match reply
         case Refused => s.(phase := Idle)
         case Accepted => s.(rows := ApplyAll(s.rows, s.phase.changes, schema), phase := Sent(s.phase.current))
         case Unheard => s.(rows := ApplyAll(s.rows, s.phase.changes, schema), phase := Idle))
    case Save(works) =>
      if !s.phase.Sent? then s
      else if works then s.(saved := s.phase.current, phase := Idle) else s.(phase := Idle)
    case Crash => s.(phase := Idle)
  }

  /** All changes of the versions below `m`, in commit order. */
  function History(log: Log, lo: nat, hi: nat, pk: string): (cs: seq<Change>)
    requires hi <= |log|
    ensures forall c | c in cs :: pk in c.row
  {
    Changes(Commits(log, lo, hi), pk)
  }

  /** Postgres agrees with replaying the first `m` versions over `start`, on the inbox columns. */
  ghost predicate MirrorsAt(rows: Rows, start: Rows, log: Log, m: nat, schema: Schema, columns: set<string>)
    requires schema.Valid() && m <= |log|
  {
    forall k :: Agree(Lookup(rows, k), Lookup(ApplyAll(start, History(log, 0, m, schema.pk), schema), k), columns)
  }

  ghost predicate InboxShape(log: Log, schema: Schema, columns: set<string>) {
    Versioned(log) && Covers(History(log, 0, |log|, schema.pk), schema, columns)
  }

  /** The changes in hand are the net of everything unsaved, up to some version past the one to be saved. */
  ghost predicate LoadedTo(s: Mirror, end: nat, pk: string)
    requires s.phase.Loaded? && -1 <= s.saved
  {
    && s.phase.current < end <= |s.log|
    && s.phase.changes == NetChanges(History(s.log, s.saved + 1, end, pk), pk)
  }

  /** `m` versions are mirrored, at least as many as were saved, and the cycle under way reads at least that far. */
  ghost predicate InvAt(s: Mirror, start: Rows, m: nat, schema: Schema, columns: set<string>)
    requires schema.Valid()
  {
    && -1 <= s.saved < m as int <= |s.log|
    && InboxShape(s.log, schema, columns)
    && WellFormed(start, schema) && WellFormed(s.rows, schema)
    && MirrorsAt(s.rows, start, s.log, m, schema, columns)
    && (s.phase.Opened? ==> s.saved < s.phase.current && m <= s.phase.current + 1 <= |s.log|)
    && (s.phase.Loaded? ==>
          s.saved < s.phase.current && exists end: nat | m <= end :: LoadedTo(s, end, schema.pk))
    && (s.phase.Sent? ==> s.saved < s.phase.current < m)
  }

  // ---- Re-reading is harmless ----

  lemma {:induction false} ApplyAllWellFormed(t: Rows, cs: seq<Change>, schema: Schema)
    requires schema.Valid() && WellFormed(t, schema) && forall c | c in cs :: schema.pk in c.row
    ensures WellFormed(ApplyAll(t, cs, schema), schema)
    decreases |cs|
  {
    if cs != [] {
      var prior, c := ApplyAll(t, cs[..|cs| - 1], schema), cs[|cs| - 1];
      assert c in cs;
      ApplyAllWellFormed(t, cs[..|cs| - 1], schema);
      UpsertKeepsWellFormed(prior, Project(c.row, schema), schema);
    }
  }

  /** For one row: the last of the re-read changes gives what replaying everything gives. */
  lemma OverlapRow(row: Option<Row>, start: Option<Row>, a: seq<Change>, b: seq<Change>, d: seq<Change>,
                   schema: Schema, columns: set<string>, k: Cell)
    requires schema.Valid() && Stored(row, schema, k) && Stored(start, schema, k)
    requires Covers(a + b + d, schema, columns) && forall c | c in a + b + d :: c.row[schema.pk] == k
    requires Agree(row, Fold(start, a + b, schema), columns)
    ensures Agree(Fold(row, Last(b + d), schema), Fold(start, a + b + d, schema), columns)
  {
    hide Agree, Stored, Covers, Fold;
    var own, whole := b + d, a + b + d;
    if own == [] {
      assert whole == a + b;
      FoldNothing(row, schema);
    } else {
      assert whole == a + own && Last(own) == Last(whole);
      CoversPart(a, own, schema, columns);
      LastCovers(own, schema, columns);
      assert forall c | c in own :: c in whole;
      AgreeOnSameLast(row, start, Last(own), whole, schema, columns, k);
    }
  }

  /** Reading again from an earlier version absorbs what was already applied. */
  lemma OverlapAbsorbed(start: Rows, rows: Rows, a: seq<Change>, b: seq<Change>, d: seq<Change>,
                        schema: Schema, columns: set<string>, k: Cell)
    requires schema.Valid() && WellFormed(start, schema) && WellFormed(rows, schema)
    requires Covers(a + b + d, schema, columns) && CoversKeyed3(a, b, d, schema)
    requires Agree(Lookup(rows, k), Lookup(ApplyAll(start, a + b, schema), k), columns)
    ensures Agree(Lookup(ApplyAll(rows, NetChanges(b + d, schema.pk), schema), k),
                  Lookup(ApplyAll(start, a + b + d, schema), k), columns)
  {
    hide OfKey, Fold, Agree, WellFormed, Stored, Covers, NetChanges, ApplyAll, Lookup;
    var pk := schema.pk;
    ApplyPointwise(rows, NetChanges(b + d, pk), schema, k);
    ApplyPointwise(start, a + b, schema, k);
    ApplyPointwise(start, a + b + d, schema, k);
    NetIsLast(b + d, pk, k);
    OfKeyConcat(a, b, ChangeKey(pk), k);
    OfKeyConcat(b, d, ChangeKey(pk), k);
    OfKeyConcat(a + b, d, ChangeKey(pk), k);
    OfKeyCovers(a + b + d, schema, columns, k);
    LookupStored(rows, schema, k);
    LookupStored(start, schema, k);
    OverlapRow(Lookup(rows, k), Lookup(start, k), OfKey(a, ChangeKey(pk), k), OfKey(b, ChangeKey(pk), k),
               OfKey(d, ChangeKey(pk), k), schema, columns, k);
  }

  ghost predicate CoversKeyed3(a: seq<Change>, b: seq<Change>, d: seq<Change>, schema: Schema) {
    forall c | c in a + b + d :: schema.pk in c.row
  }

  lemma CoversPart(a: seq<Change>, b: seq<Change>, schema: Schema, columns: set<string>)
    requires Covers(a + b, schema, columns)
    ensures Covers(a, schema, columns) && Covers(b, schema, columns)
  {
    assert forall c | c in a :: c in a + b;
    assert forall c | c in b :: c in a + b;
  }

  // ---- Histories ----

  lemma {:induction false} ChangesConcat(a: seq<CdfRow>, b: seq<CdfRow>, pk: string)
    ensures Changes(a + b, pk) == Changes(a, pk) + Changes(b, pk)
    decreases |b|
  {
    hide ToChange;
    if b == [] {
      assert a + b == a;
    } else {
      ChangesConcat(a, b[..|b| - 1], pk);
      assert (a + b)[..|a + b| - 1] == a + b[..|b| - 1];
    }
  }

  lemma {:induction false} CommitsSplit(log: Log, lo: nat, mid: nat, hi: nat)
    requires lo <= mid <= hi <= |log|
    ensures Commits(log, lo, hi) == Commits(log, lo, mid) + Commits(log, mid, hi)
    decreases hi
  {
    if mid < hi {
      CommitsSplit(log, lo, mid, hi - 1);
    }
  }

  lemma HistorySplit(log: Log, lo: nat, mid: nat, hi: nat, pk: string)
    requires lo <= mid <= hi <= |log|
    ensures History(log, lo, hi, pk) == History(log, lo, mid, pk) + History(log, mid, hi, pk)
  {
    CommitsSplit(log, lo, mid, hi);
    ChangesConcat(Commits(log, lo, mid), Commits(log, mid, hi), pk);
  }

  lemma {:induction false} CommitsGrow(log: Log, more: Log, lo: nat, hi: nat)
    requires hi <= |log|
    ensures Commits(log + more, lo, hi) == Commits(log, lo, hi)
    decreases hi
  {
    if lo < hi {
      CommitsGrow(log, more, lo, hi - 1);
    }
  }

  /** A read that starts at the saved version and ends past `m` brings the mirror to its end. */
  lemma ReadAdvances(s: Mirror, start: Rows, m: nat, end: nat, schema: Schema, columns: set<string>)
    requires schema.Valid() && -1 <= s.saved < m as int <= |s.log| && m <= end <= |s.log|
    requires InboxShape(s.log, schema, columns) && WellFormed(start, schema) && WellFormed(s.rows, schema)
    requires MirrorsAt(s.rows, start, s.log, m, schema, columns)
    ensures MirrorsAt(ApplyAll(s.rows, NetChanges(History(s.log, s.saved + 1, end, schema.pk), schema.pk), schema),
                      start, s.log, end, schema, columns)
  {
    hide Agree, WellFormed, Covers, History, NetChanges;
    var pk, lo := schema.pk, s.saved + 1;
    var a, b, d := History(s.log, 0, lo, pk), History(s.log, lo, m, pk), History(s.log, m, end, pk);
    HistorySplit(s.log, 0, lo, m, pk);
    HistorySplit(s.log, lo, m, end, pk);
    HistorySplit(s.log, 0, m, end, pk);
    HistorySplit(s.log, 0, end, |s.log|, pk);
    CoversPart(a + b + d, History(s.log, end, |s.log|, pk), schema, columns);
    var rows := ApplyAll(s.rows, NetChanges(b + d, pk), schema);
    forall k
      ensures Agree(Lookup(rows, k), Lookup(ApplyAll(start, History(s.log, 0, end, pk), schema), k), columns)
    {
      assert Agree(Lookup(s.rows, k), Lookup(ApplyAll(start, a + b, schema), k), columns);
      OverlapAbsorbed(start, s.rows, a, b, d, schema, columns, k);
    }
  }

  // ---- Every step ----

  lemma HistoryGrows(log: Log, commit: seq<CdfRow>, lo: nat, hi: nat, pk: string)
    requires hi <= |log|
    ensures History(log + [commit], lo, hi, pk) == History(log, lo, hi, pk)
  {
    CommitsGrow(log, [commit], lo, hi);
  }

  lemma WriteKeeps(s: Mirror, start: Rows, m: nat, commit: seq<CdfRow>, schema: Schema, columns: set<string>)
    requires schema.Valid() && InvAt(s, start, m, schema, columns)
    requires InboxShape(s.log + [commit], schema, columns)
    ensures InvAt(s.(log := s.log + [commit]), start, m, schema, columns)
  {
    hide Agree, WellFormed, Covers, History, NetChanges, InboxShape, ApplyAll;
    var after := s.(log := s.log + [commit]);
    HistoryGrows(s.log, commit, 0, m, schema.pk);
    if s.phase.Loaded? {
      var end: nat :| m <= end && LoadedTo(s, end, schema.pk);
      HistoryGrows(s.log, commit, s.saved + 1, end, schema.pk);
      assert LoadedTo(after, end, schema.pk);
    }
  }

  lemma LoadKeeps(s: Mirror, start: Rows, m: nat, end: nat, cdf: seq<CdfRow>, schema: Schema, columns: set<string>)
    requires schema.Valid() && InvAt(s, start, m, schema, columns) && s.phase.Opened?
    requires s.phase.current < end <= |s.log| && IsCdf(cdf, s.log, s.saved + 1, end)
    ensures InvAt(s.(phase := Loaded(s.phase.current, NetOfRead(cdf, schema.pk))), start, m, schema, columns)
  {
    hide Agree, WellFormed, Covers, NetChanges, ApplyAll, IsCdf, Commits, SortByVersion, Changes, MirrorsAt;
    SortedIsCommitOrder(cdf, s.log, s.saved + 1, end);
    var after := s.(phase := Loaded(s.phase.current, NetOfRead(cdf, schema.pk)));
    assert LoadedTo(after, end, schema.pk);
  }

  lemma PostKeeps(s: Mirror, start: Rows, m: nat, reply: Reply, schema: Schema, columns: set<string>) returns (m': nat)
    requires schema.Valid() && InvAt(s, start, m, schema, columns) && s.phase.Loaded?
    ensures m <= m' && InvAt(Step(s, Post(reply), schema), start, m', schema, columns)
  {
    hide Agree, WellFormed, Covers, NetChanges, ApplyAll, MirrorsAt, InboxShape, History;
    var end: nat :| m <= end && LoadedTo(s, end, schema.pk);
    ReadAdvances(s, start, m, end, schema, columns);
    ApplyAllWellFormed(s.rows, s.phase.changes, schema);
    if s.phase.changes == [] {
      NothingToApply(s.rows, schema);
      m' := end;
    } else if reply == Refused {
      m' := m;
    } else {
      m' := end;
    }
  }

  lemma NothingToApply(t: Rows, schema: Schema)
    requires schema.Valid()
    ensures ApplyAll(t, [], schema) == t
  {
  }

  /** The inbox keeps its columns and versions through every write of the run. */
  ghost predicate Allowed(s: Mirror, ev: Event, schema: Schema, columns: set<string>) {
    ev.Write? ==> InboxShape(s.log + [ev.commit], schema, columns)
  }

  /** Every step keeps a mirrored version, never an earlier one. */
  lemma StepKeeps(s: Mirror, start: Rows, m: nat, ev: Event, schema: Schema, columns: set<string>) returns (m': nat)
    requires schema.Valid() && InvAt(s, start, m, schema, columns) && Allowed(s, ev, schema, columns)
    ensures m <= m' && InvAt(Step(s, ev, schema), start, m', schema, columns)
  {
    hide Agree, WellFormed, Covers, NetChanges, ApplyAll, MirrorsAt, InboxShape, History, IsCdf, NetOfRead;
    m' := m;
    match ev
    case Write(commit) => WriteKeeps(s, start, m, commit, schema, columns);
    case Open =>
    case Load(end, cdf) =>
      if s.phase.Opened? && s.phase.current < end <= |s.log| && IsCdf(cdf, s.log, s.saved + 1, end) {
        LoadKeeps(s, start, m, end, cdf, schema, columns);
      }
    case Post(reply) =>
      if s.phase.Loaded? {
        m' := PostKeeps(s, start, m, reply, schema, columns);
      }
    case Save(works) =>
    case Crash =>
  }

  /** A run of the watcher and the inbox, with every state on the way. */
  ghost predicate IsRun(states: seq<Mirror>, evs: seq<Event>, schema: Schema, columns: set<string>)
    requires schema.Valid()
  {
    && |states| == |evs| + 1
    && forall i | 0 <= i < |evs| ::
         && Allowed(states[i], evs[i], schema, columns)
         && states[i + 1] == Step(states[i], evs[i], schema)
  }

  /** Nothing saved yet; Postgres and the inbox may hold anything. */
  ghost predicate Initial(s: Mirror, schema: Schema, columns: set<string>) {
    s.saved == -1 && s.phase == Idle && WellFormed(s.rows, schema) && InboxShape(s.log, schema, columns)
  }

  lemma StartMirrors(s: Mirror, schema: Schema, columns: set<string>)
    requires schema.Valid() && Initial(s, schema, columns) && columns <= schema.columns
    ensures InvAt(s, s.rows, 0, schema, columns)
  {
    hide Agree, WellFormed, Covers, InboxShape;
    assert History(s.log, 0, 0, schema.pk) == [];
    NothingToApply(s.rows, schema);
    forall k
      ensures Agree(Lookup(s.rows, k), Lookup(ApplyAll(s.rows, History(s.log, 0, 0, schema.pk), schema), k), columns)
    {
      LookupStored(s.rows, schema, k);
      AgreeReflexive(Lookup(s.rows, k), schema, columns, k);
    }
  }

  /** Over every run there is a mirrored version at or past the saved one, and it never moves back. */
  lemma {:induction false} RunMirrors(states: seq<Mirror>, evs: seq<Event>, schema: Schema, columns: set<string>)
      returns (ms: seq<nat>)
    requires schema.Valid() && columns <= schema.columns
    requires IsRun(states, evs, schema, columns) && Initial(states[0], schema, columns)
    ensures |ms| == |states|
    ensures forall i | 0 <= i < |states| :: InvAt(states[i], states[0].rows, ms[i], schema, columns)
    ensures forall i, j | 0 <= i <= j < |states| :: ms[i] <= ms[j]
    decreases |evs|
  {
    hide InvAt, Initial, Allowed, Step;
    if evs == [] {
      StartMirrors(states[0], schema, columns);
      ms := [0];
    } else {
      var n := |evs| - 1;
      ms := RunMirrors(states[..n + 1], evs[..n], schema, columns);
      var m := StepKeeps(states[n], states[0].rows, ms[n], evs[n], schema, columns);
      ms := ms + [m];
    }
  }

  /** The inbox table after `m` versions. */
  ghost function Snapshot(log: Log, m: nat, schema: Schema): Rows
    requires schema.Valid() && m <= |log|
  {
    ApplyAll(map[], History(log, 0, m, schema.pk), schema)
  }

  /** At a mirrored version, Postgres matches the inbox for every key the inbox touched, and is unchanged elsewhere. */
  lemma MirrorMeaning(s: Mirror, start: Rows, m: nat, schema: Schema, columns: set<string>, k: Cell)
    requires schema.Valid() && InvAt(s, start, m, schema, columns)
    ensures OfKey(History(s.log, 0, m, schema.pk), ChangeKey(schema.pk), k) != [] ==>
      Agree(Lookup(s.rows, k), Lookup(Snapshot(s.log, m, schema), k), columns)
    ensures OfKey(History(s.log, 0, m, schema.pk), ChangeKey(schema.pk), k) == [] ==>
      Agree(Lookup(s.rows, k), Lookup(start, k), columns)
  {
    hide WellFormed, Covers, History, OfKey, ApplyAll, Fold, Agree;
    var pk, h := schema.pk, History(s.log, 0, m, schema.pk);
    HistorySplit(s.log, 0, m, |s.log|, pk);
    CoversPart(h, History(s.log, m, |s.log|, pk), schema, columns);
    ApplyPointwise(start, h, schema, k);
    ApplyPointwise(map[], h, schema, k);
    OfKeyCovers(h, schema, columns, k);
    LookupStored(start, schema, k);
    assert Agree(Lookup(s.rows, k), Lookup(ApplyAll(start, h, schema), k), columns);
    if OfKey(h, ChangeKey(pk), k) == [] {
      FoldNothing(Lookup(start, k), schema);
    } else {
      var own := OfKey(h, ChangeKey(pk), k);
      AgreeOnSameLast(Lookup(start, k), None, own, own, schema, columns, k);
      AgreeTransitive(Lookup(s.rows, k), Fold(Lookup(start, k), own, schema), Fold(None, own, schema), columns);
    }
  }

  lemma AgreeTransitive(a: Option<Row>, b: Option<Row>, c: Option<Row>, columns: set<string>)
    requires Agree(a, b, columns) && Agree(b, c, columns)
    ensures Agree(a, c, columns)
  {
  }

  /** An undisturbed cycle catches up: everything in the inbox is saved and mirrored, whatever went wrong before. */
  lemma CycleCatchesUp(s: Mirror, start: Rows, m: nat, cdf: seq<CdfRow>, schema: Schema, columns: set<string>)
    requires schema.Valid() && InvAt(s, start, m, schema, columns) && s.phase.Idle?
    requires s.saved < |s.log| - 1 ==> IsCdf(cdf, s.log, s.saved + 1, |s.log|)
    ensures var ready := Step(s, Open, schema);
      var loaded := Step(ready, Load(|s.log|, cdf), schema);
      var done := Step(Step(loaded, Post(Accepted), schema), Save(true), schema);
      done.log == s.log && done.saved == |s.log| - 1 && InvAt(done, start, |s.log|, schema, columns)
  {
    hide Agree, WellFormed, Covers, ApplyAll, MirrorsAt, InboxShape, History, IsCdf, NetOfRead, LoadedTo;
    var ready := Step(s, Open, schema);
    var loaded := Step(ready, Load(|s.log|, cdf), schema);
    var m1 := StepKeeps(s, start, m, Open, schema, columns);
    var m2 := StepKeeps(ready, start, m1, Load(|s.log|, cdf), schema, columns);
    var sent := Step(loaded, Post(Accepted), schema);
    var m3 := StepKeeps(loaded, start, m2, Post(Accepted), schema, columns);
    var m4 := StepKeeps(sent, start, m3, Save(true), schema, columns);
    assert loaded.phase.Loaded? ==> Keyed(loaded.phase.changes, schema.pk);
  }

  // ---- A request that outlives its client ----

  /** Each key the late request touches ended, by version `m`, the way the request leaves it. */
  ghost predicate StillCurrent(log: Log, lo: nat, end: nat, m: nat, schema: Schema, columns: set<string>)
    requires lo <= end <= m <= |log|
  {
    forall k | OfKey(History(log, lo, end, schema.pk), ChangeKey(schema.pk), k) != [] ::
      StillCurrentAt(log, lo, end, m, schema, columns, k)
  }

  ghost predicate StillCurrentAt(log: Log, lo: nat, end: nat, m: nat, schema: Schema, columns: set<string>, k: Cell)
    requires lo <= end <= m <= |log|
  {
    Agree(Fold(None, Last(OfKey(History(log, lo, end, schema.pk), ChangeKey(schema.pk), k)), schema),
          Fold(None, Last(OfKey(History(log, 0, m, schema.pk), ChangeKey(schema.pk), k)), schema), columns)
  }

  lemma LateRow(row: Option<Row>, target: Option<Row>, own: seq<Change>, whole: seq<Change>, schema: Schema,
                columns: set<string>, k: Cell)
    requires schema.Valid() && Stored(row, schema, k) && Stored(target, schema, k)
    requires Covers(own, schema, columns) && forall c | c in own :: c.row[schema.pk] == k
    requires Covers(whole, schema, columns) && forall c | c in whole :: c.row[schema.pk] == k
    requires own != [] && whole != []
    ensures Agree(Fold(row, Last(own), schema), Fold(target, whole, schema), columns) <==>
      Agree(Fold(None, Last(own), schema), Fold(None, Last(whole), schema), columns)
  {
    hide Fold, Stored, Covers;
    LastCovers(own, schema, columns);
    LastDecides(row, Last(own), schema, columns, k);
    LastDecides(target, whole, schema, columns, k);
    assert Last(Last(own)) == Last(own);
  }

  lemma LatePostAt(s: Mirror, start: Rows, m: nat, lo: nat, end: nat, schema: Schema, columns: set<string>, k: Cell)
    requires schema.Valid() && InvAt(s, start, m, schema, columns) && lo <= end <= m
    ensures var h := History(s.log, lo, end, schema.pk);
      var after := ApplyAll(s.rows, NetChanges(h, schema.pk), schema);
      Agree(Lookup(after, k), Lookup(ApplyAll(start, History(s.log, 0, m, schema.pk), schema), k), columns) <==>
        (OfKey(h, ChangeKey(schema.pk), k) != [] ==> StillCurrentAt(s.log, lo, end, m, schema, columns, k))
  {
    hide WellFormed, Covers, History, OfKey, ApplyAll, Fold, Agree, NetChanges, Stored, LoadedTo;
    var pk := schema.pk;
    var h, whole := History(s.log, lo, end, pk), History(s.log, 0, m, pk);
    HistorySplit(s.log, 0, lo, m, pk);
    HistorySplit(s.log, lo, end, m, pk);
    HistorySplit(s.log, 0, m, |s.log|, pk);
    CoversPart(whole, History(s.log, m, |s.log|, pk), schema, columns);
    assert whole == History(s.log, 0, lo, pk) + h + History(s.log, end, m, pk);
    CoversPart(History(s.log, 0, lo, pk) + h, History(s.log, end, m, pk), schema, columns);
    CoversPart(History(s.log, 0, lo, pk), h, schema, columns);
    OfKeyConcat(History(s.log, 0, lo, pk) + h, History(s.log, end, m, pk), ChangeKey(pk), k);
    OfKeyConcat(History(s.log, 0, lo, pk), h, ChangeKey(pk), k);
    ApplyPointwise(s.rows, NetChanges(h, pk), schema, k);
    ApplyPointwise(start, whole, schema, k);
    NetIsLast(h, pk, k);
    OfKeyCovers(h, schema, columns, k);
    OfKeyCovers(whole, schema, columns, k);
    LookupStored(s.rows, schema, k);
    LookupStored(start, schema, k);
    assert Agree(Lookup(s.rows, k), Lookup(ApplyAll(start, whole, schema), k), columns);
    if OfKey(h, ChangeKey(pk), k) == [] {
      FoldNothing(Lookup(s.rows, k), schema);
    } else {
      LateRow(Lookup(s.rows, k), Lookup(start, k), OfKey(h, ChangeKey(pk), k), OfKey(whole, ChangeKey(pk), k), schema,
              columns, k);
    }
  }

  /** A timed-out request that commits late keeps the mirror exactly when no key it touches has moved on. */
  lemma LatePostExact(s: Mirror, start: Rows, m: nat, lo: nat, end: nat, schema: Schema, columns: set<string>)
    requires schema.Valid() && InvAt(s, start, m, schema, columns) && lo <= end <= m
    ensures MirrorsAt(ApplyAll(s.rows, NetChanges(History(s.log, lo, end, schema.pk), schema.pk), schema),
                      start, s.log, m, schema, columns) <==>
      StillCurrent(s.log, lo, end, m, schema, columns)
  {
    hide InvAt, History, OfKey, ApplyAll, Agree, NetChanges, StillCurrentAt;
    forall k {
      LatePostAt(s, start, m, lo, end, schema, columns, k);
    }
  }

  // ---- What one cycle does ----

  /**
   * A cycle over everything unsaved applies its net changes exactly when there are any and the service commits, and
   * saves the inbox's last version exactly when there was nothing to apply or the reply came, and the save works.
   */
  lemma CycleExact(s: Mirror, cdf: seq<CdfRow>, reply: Reply, saves: bool, schema: Schema)
    requires schema.Valid() && s.phase.Idle? && -1 <= s.saved < |s.log| - 1 && Versioned(s.log)
    requires IsCdf(cdf, s.log, s.saved + 1, |s.log|)
    ensures var loaded := Step(Step(s, Open, schema), Load(|s.log|, cdf), schema);
      var done := Step(Step(loaded, Post(reply), schema), Save(saves), schema);
      var net := NetChanges(History(s.log, s.saved + 1, |s.log|, schema.pk), schema.pk);
      && done.log == s.log && done.phase == Idle
      && done.rows == (if reply == Refused then s.rows else ApplyAll(s.rows, net, schema))
      && done.saved == if saves && (net == [] || reply == Accepted) then |s.log| - 1 else s.saved
  {
    hide NetChanges, ApplyAll, IsCdf, SortByVersion, Versioned, Commits;
    SortedIsCommitOrder(cdf, s.log, s.saved + 1, |s.log|);
    var net := NetChanges(History(s.log, s.saved + 1, |s.log|, schema.pk), schema.pk);
    assert net == [] ==> ApplyAll(s.rows, net, schema) == s.rows by { NothingToApply(s.rows, schema); }
  }

  /** After a crash at any point of a cycle, the next undisturbed cycle catches up. */
  lemma RecoversFromCrash(s: Mirror, start: Rows, m: nat, cdf: seq<CdfRow>, schema: Schema, columns: set<string>)
    requires schema.Valid() && InvAt(s, start, m, schema, columns)
    requires s.saved < |s.log| - 1 ==> IsCdf(cdf, s.log, s.saved + 1, |s.log|)
    ensures var back := Step(s, Crash, schema);
      var loaded := Step(Step(back, Open, schema), Load(|s.log|, cdf), schema);
      var done := Step(Step(loaded, Post(Accepted), schema), Save(true), schema);
      done.log == s.log && done.saved == |s.log| - 1 && InvAt(done, start, |s.log|, schema, columns)
  {
    hide InvAt, IsCdf, Allowed;
    var back := Step(s, Crash, schema);
    assert Allowed(s, Crash, schema, columns) by { CrashAllowed(s, schema, columns); }
    var m' := StepKeeps(s, start, m, Crash, schema, columns);
    CycleCatchesUp(back, start, m', cdf, schema, columns);
  }

  lemma CrashAllowed(s: Mirror, schema: Schema, columns: set<string>)
    ensures Allowed(s, Crash, schema, columns)
  {
  }
}
