/** Exactly-once delivery from Kafka to Delta, over every run of the sink. */
module SinkSafety {
  import opened Wrappers
  import opened Sequences
  import opened Transform
  import opened SinkModel

  // ---- The data records of a log ----

  /** The entry that the record at offset `o` contributes, if it carries data. */
  function Contribution(p: Partition, log: seq<Payload>, o: nat): seq<Entry>
    requires o < |log|
  {
    match FeedRow(p.topic, log[o])
    case Some(row) => [Entry(p, o, row)]
    case None => []
  }

  /** The data records of `p` at offsets from `lo` up to `hi`, in offset order. */
  function Data(p: Partition, log: seq<Payload>, lo: nat, hi: nat): seq<Entry>
    requires hi <= |log|
  {
    if hi <= lo then [] else Data(p, log, lo, hi - 1) + Contribution(p, log, hi - 1)
  }

  /** Groups entries by the partition they came from. */
  function BySource(e: Entry): Option<Partition> { Some(e.source) }

  lemma {:induction false} DataSplit(p: Partition, log: seq<Payload>, lo: nat, mid: nat, hi: nat)
    requires lo <= mid <= hi <= |log|
    ensures Data(p, log, lo, hi) == Data(p, log, lo, mid) + Data(p, log, mid, hi)
    decreases hi
  {
    hide FeedRow;
    if mid < hi {
      DataSplit(p, log, lo, mid, hi - 1);
    }
  }

  lemma {:induction false} DataGrows(p: Partition, log: seq<Payload>, more: seq<Payload>, lo: nat, hi: nat)
    requires hi <= |log|
    ensures Data(p, log + more, lo, hi) == Data(p, log, lo, hi)
    decreases hi
  {
    hide FeedRow;
    if lo < hi {
      DataGrows(p, log, more, lo, hi - 1);
    }
  }

  /** Every data record in the range is there once, in offset order, and nothing else is. */
  lemma {:induction false} DataExact(p: Partition, log: seq<Payload>, lo: nat, hi: nat)
    requires hi <= |log|
    ensures forall e | e in Data(p, log, lo, hi) ::
      e.source == p && lo <= e.offset < hi && FeedRow(p.topic, log[e.offset]) == Some(e.row)
    ensures forall o | lo <= o < hi && FeedRow(p.topic, log[o]).Some? ::
      Entry(p, o, FeedRow(p.topic, log[o]).value) in Data(p, log, lo, hi)
    ensures forall i, j | 0 <= i < j < |Data(p, log, lo, hi)| ::
      Data(p, log, lo, hi)[i].offset < Data(p, log, lo, hi)[j].offset
    decreases hi
  {
    hide FeedRow;
    if lo < hi {
      DataExact(p, log, lo, hi - 1);
    }
  }

  /** No data record lies in an interval inside one that has none. */
  lemma NoDataInside(p: Partition, log: seq<Payload>, lo: nat, hi: nat, a: nat, b: nat)
    requires hi <= |log| && b <= |log| && Data(p, log, lo, hi) == []
    requires a < b ==> lo <= a && b <= hi
    ensures Data(p, log, a, b) == []
  {
    hide FeedRow;
    if a < b {
      DataSplit(p, log, lo, b, hi);
      DataSplit(p, log, lo, a, b);
    }
  }

  /** After the last data record of a range there is none. */
  lemma {:induction false} NoDataAfterLast(p: Partition, log: seq<Payload>, lo: nat, hi: nat)
    requires hi <= |log| && Data(p, log, lo, hi) != []
    ensures var d := Data(p, log, lo, hi); var o := d[|d| - 1].offset;
      lo <= o < hi && Data(p, log, o + 1, hi) == []
    decreases hi
  {
    hide FeedRow;
    if Contribution(p, log, hi - 1) == [] {
      NoDataAfterLast(p, log, lo, hi - 1);
    }
  }

  // ---- One partition ----

  /** The table holds exactly the data records of `p` up to its marker. */
  ghost predicate Holds(p: Partition, log: seq<Payload>, t: Table) {
    Next(t, p) <= |log| && OfKey(t.rows, BySource, p) == Data(p, log, 0, Next(t, p))
  }

  /** Nothing unwritten lies below `offset`. */
  ghost predicate Covered(p: Partition, log: seq<Payload>, t: Table, offset: nat) {
    offset <= |log| && Data(p, log, Next(t, p), offset) == []
  }

  /** The batch holds exactly the data records between the marker and the position. */
  ghost predicate Waits(p: Partition, log: seq<Payload>, t: Table, rows: seq<Entry>, marks: Marks, at: nat) {
    && at <= |log| && Next(t, p) <= |log|
    && Data(p, log, at, Next(t, p)) == []
    && OfKey(rows, BySource, p) == Data(p, log, Next(t, p), at)
    && (p in marks <==> OfKey(rows, BySource, p) != [])
    && (p in marks ==> marks[p] == OfKey(rows, BySource, p)[|OfKey(rows, BySource, p)| - 1].offset)
  }

  lemma EmptyRange(p: Partition, log: seq<Payload>, lo: nat, hi: nat)
    requires hi <= lo && hi <= |log|
    ensures Data(p, log, lo, hi) == []
  {
  }

  /** Where the marker lands when the pending rows are appended. */
  lemma MarkerLands(p: Partition, log: seq<Payload>, t: Table, rows: seq<Entry>, marks: Marks, at: nat)
    requires Waits(p, log, t, rows, marks, at)
    ensures var n' := Next(Appended(t, rows, marks), p);
      && Next(t, p) <= n' <= |log|
      && Data(p, log, n', at) == [] && Data(p, log, at, n') == []
      && OfKey(rows, BySource, p) == Data(p, log, Next(t, p), n')
    ensures p in marks && p in t.markers ==> marks[p] > t.markers[p]
  {
    hide FeedRow, Data, OfKey;
    var n, n' := Next(t, p), Next(Appended(t, rows, marks), p);
    if p in marks {
      NoDataAfterLast(p, log, n, at);
      DataSplit(p, log, n, n', at);
      EmptyRange(p, log, at, n');
    } else {
      EmptyRange(p, log, n, n');
    }
  }

  /** Appending the pending rows with their marks keeps all three, and leaves nothing pending. */
  lemma AppendKeeps(p: Partition, log: seq<Payload>, t: Table, rows: seq<Entry>, marks: Marks, at: nat)
    requires Holds(p, log, t) && Waits(p, log, t, rows, marks, at)
    ensures Holds(p, log, Appended(t, rows, marks))
    ensures Waits(p, log, Appended(t, rows, marks), [], map[], at)
    ensures Covered(p, log, Appended(t, rows, marks), at)
    ensures p in marks && p in t.markers ==> marks[p] > t.markers[p]
    ensures forall c: nat | Covered(p, log, t, c) :: Covered(p, log, Appended(t, rows, marks), c)
  {
    hide FeedRow, Data;
    var t' := Appended(t, rows, marks);
    var n, n' := Next(t, p), Next(t', p);
    OfKeyConcat(t.rows, rows, BySource, p);
    MarkerLands(p, log, t, rows, marks, at);
    DataSplit(p, log, 0, n, n');
    forall c: nat | Covered(p, log, t, c)
      ensures Covered(p, log, t', c)
    {
      NoDataInside(p, log, n, c, n', c);
    }
  }

  /** Delivering the record at the position keeps the batch exact, whether or not it carries data. */
  lemma TakeKeeps(p: Partition, log: seq<Payload>, t: Table, rows: seq<Entry>, marks: Marks, at: nat)
    requires at < |log|
    requires Waits(p, log, t, rows, marks, at)
    ensures Contribution(p, log, at) == [] ==> Waits(p, log, t, rows, marks, at + 1)
    ensures Contribution(p, log, at) != [] ==>
      Waits(p, log, t, rows + Contribution(p, log, at), marks[p := at], at + 1)
    ensures p in marks ==> marks[p] < at
  {
    hide FeedRow, Data, OfKey, Contribution;
    var n := Next(t, p);
    var c := Contribution(p, log, at);
    OneRecord(p, log, at);
    OfKeyConcat(rows, c, BySource, p);
    if at < n {
      DataSplit(p, log, at, at + 1, n);
      EmptyRange(p, log, n, at + 1);
      EmptyRange(p, log, n, at);
    } else {
      DataSplit(p, log, n, at, at + 1);
      EmptyRange(p, log, at + 1, n);
    }
    if p in marks {
      NoDataAfterLast(p, log, n, at);
    }
  }

  lemma OneRecord(p: Partition, log: seq<Payload>, at: nat)
    requires at < |log|
    ensures var c := Contribution(p, log, at);
      && Data(p, log, at, at + 1) == c
      && OfKey(c, BySource, p) == c
      && (c != [] ==> |c| == 1 && c[0].offset == at)
  {
    hide FeedRow;
    assert Data(p, log, at, at) == [];
    var c := Contribution(p, log, at);
    if c != [] {
      assert OfKey(c[..0], BySource, p) == [];
    }
  }

  lemma LogGrows(p: Partition, log: seq<Payload>, x: Payload, t: Table, rows: seq<Entry>, marks: Marks, at: nat)
    ensures Holds(p, log, t) ==> Holds(p, log + [x], t)
    ensures Covered(p, log, t, at) ==> Covered(p, log + [x], t, at)
    ensures Waits(p, log, t, rows, marks, at) ==> Waits(p, log + [x], t, rows, marks, at)
  {
    hide FeedRow;
    if Next(t, p) <= |log| {
      DataGrows(p, log, [x], 0, Next(t, p));
    }
    if at <= |log| {
      DataGrows(p, log, [x], Next(t, p), at);
      if Next(t, p) <= |log| {
        DataGrows(p, log, [x], at, Next(t, p));
      }
    }
  }

  // ---- The whole state ----

  function RowsFor(s: State, p: Partition): seq<Entry> {
    match UriOf(p.topic)
    case Some(uri) => RowsAt(s.batch, uri)
    case None => []
  }

  function MarksFor(s: State, p: Partition): Marks {
    match UriOf(p.topic)
    case Some(uri) => MarksAt(s.offsets, uri)
    case None => map[]
  }

  lemma SameTableFor(s: State, t: State, p: Partition)
    requires t.tables == s.tables
    ensures TableFor(t, p) == TableFor(s, p)
  {
  }

  ghost predicate From(entries: seq<Entry>, known: set<Partition>, uri: string) {
    forall e | e in entries :: e.source in known && UriOf(e.source.topic) == Some(uri)
  }

  ghost predicate CommittedSafe(s: State) {
    forall p | p in s.committed :: p in s.logs && Covered(p, s.logs[p], TableFor(s, p), s.committed[p])
  }

  ghost predicate AllHold(s: State) {
    forall p | p in s.logs :: Holds(p, s.logs[p], TableFor(s, p))
  }

  /** Rows and markers only come from known partitions of the table's own topic. */
  ghost predicate Owned(s: State) {
    forall uri | uri in s.tables ::
      From(s.tables[uri].rows, s.logs.Keys, uri) && s.tables[uri].markers.Keys <= s.logs.Keys
  }

  /** What the stores promise, whether or not a process is running. */
  ghost predicate Durable(s: State) {
    AllHold(s) && CommittedSafe(s) && Owned(s)
  }

  ghost predicate Distinct(order: seq<string>) {
    forall i, j | 0 <= i < j < |order| :: order[i] != order[j]
  }

  ghost predicate AllWait(s: State) {
    forall p | p in s.position ::
      p in s.logs && Waits(p, s.logs[p], TableFor(s, p), RowsFor(s, p), MarksFor(s, p), s.position[p])
  }

  /** The parts of the process agree on which tables and partitions they talk about. */
  ghost predicate Shape(s: State) {
    && (forall p | p in s.stored :: p in s.position && s.stored[p] == s.position[p])
    && (forall uri | uri in s.batch :: s.batch[uri] != [] && From(s.batch[uri], s.position.Keys, uri))
    && (forall uri | uri in s.offsets ::
          uri in s.batch && forall p | p in s.offsets[uri] :: p in s.position && UriOf(p.topic) == Some(uri))
    && Distinct(s.order)
    && (forall uri :: uri in s.order <==> uri in s.batch)
    && (!s.running ==> s == Halt(s))
  }

  /** What the process keeps between turns of its loop. */
  ghost predicate Pending(s: State) {
    AllWait(s) && Shape(s)
  }

  ghost predicate Inv(s: State) {
    Durable(s) && Pending(s)
  }

  // ---- Flushing ----

  /** A table untouched by this batch, or carrying all of it. */
  ghost predicate Either(t0: Table, t: Table, rows: seq<Entry>, marks: Marks) {
    t == t0 || t == Appended(t0, rows, marks)
  }

  /** A non-empty batch for a table, with at least one mark, none of them applied to `t0`. */
  ghost predicate Fresh(t0: Table, rows: seq<Entry>, marks: Marks) {
    rows != [] && marks != map[] && !AlreadyApplied(t0, marks)
  }

  /** A retried append either adds the whole batch or finds it there: a rejection loses nothing. */
  lemma AppendOnce(t0: Table, t: Table, rows: seq<Entry>, marks: Marks, o: Outcome)
    requires Fresh(t0, rows, marks) && Either(t0, t, rows, marks)
    ensures Either(t0, AppendTo(t, rows, marks, o).0, rows, marks)
    ensures t == Appended(t0, rows, marks) ==> AppendTo(t, rows, marks, o).0 == t
    ensures AppendTo(t, rows, marks, o).1 ==> AppendTo(t, rows, marks, o).0 == Appended(t0, rows, marks)
  {
    if t == Appended(t0, rows, marks) {
      var p :| p in marks;
      assert t.markers[p] == marks[p];
    }
  }

  lemma {:induction false} FlushTablesOnce(base: map<string, Table>, tables: map<string, Table>,
      batch: map<string, seq<Entry>>, offsets: map<string, Marks>, order: seq<string>, outcomes: seq<Outcome>)
    requires Distinct(order)
    requires forall uri | uri in order ::
      && Fresh(TableAt(base, uri), RowsAt(batch, uri), MarksAt(offsets, uri))
      && Either(TableAt(base, uri), TableAt(tables, uri), RowsAt(batch, uri), MarksAt(offsets, uri))
    ensures var (tables', ok) := FlushTables(tables, batch, offsets, order, outcomes);
      && (forall uri | uri in order ::
            var full := Appended(TableAt(base, uri), RowsAt(batch, uri), MarksAt(offsets, uri));
            && Either(TableAt(base, uri), TableAt(tables', uri), RowsAt(batch, uri), MarksAt(offsets, uri))
            && (TableAt(tables, uri) == full || ok ==> TableAt(tables', uri) == full))
      && (forall uri | uri !in order :: TableAt(tables', uri) == TableAt(tables, uri))
    decreases |order|
  {
    if order != [] {
      var uri := order[0];
      var rows, marks := RowsAt(batch, uri), MarksAt(offsets, uri);
      AppendOnce(TableAt(base, uri), TableAt(tables, uri), rows, marks, First(outcomes));
      var (t, ok) := AppendTo(TableAt(tables, uri), rows, marks, First(outcomes));
      var next := Put(tables, uri, t);
      assert forall u :: TableAt(next, u) == if u == uri then t else TableAt(tables, u);
      if ok {
        assert uri !in order[1..];
        FlushTablesOnce(base, next, batch, offsets, order[1..], Rest(outcomes));
      }
    }
  }

  /** `s` is `base` part-way through flushing its batch. */
  ghost predicate PartWay(base: State, s: State) {
    && s == base.(tables := s.tables, committed := s.committed)
    && (forall uri | uri in base.batch ::
          Either(
            TableAt(base.tables, uri), TableAt(s.tables, uri), RowsAt(base.batch, uri), MarksAt(base.offsets, uri)))
    && (forall uri | uri !in base.batch :: TableAt(s.tables, uri) == TableAt(base.tables, uri))
    && CommittedSafe(s)
  }

  lemma BatchFresh(s: State)
    requires Inv(s)
    ensures forall uri | uri in s.batch ::
      Fresh(TableAt(s.tables, uri), RowsAt(s.batch, uri), MarksAt(s.offsets, uri))
  {
    hide FeedRow, UriOf, Data, OfKey;
    forall uri | uri in s.batch
      ensures Fresh(TableAt(s.tables, uri), RowsAt(s.batch, uri), MarksAt(s.offsets, uri))
    {
      var rows, marks := s.batch[uri], MarksAt(s.offsets, uri);
      var e := rows[0];
      OfKeyIn(rows, BySource, e.source);
      assert e in rows;
      assert e.source in marks;
      forall p | p in marks
        ensures !(p in TableAt(s.tables, uri).markers && marks[p] <= TableAt(s.tables, uri).markers[p])
      {
        AppendKeeps(p, s.logs[p], TableFor(s, p), rows, marks, s.position[p]);
      }
    }
  }

  lemma PartWayHold(base: State, s: State)
    requires Inv(base) && PartWay(base, s)
    ensures AllHold(s)
  {
    hide FeedRow, UriOf, Data, OfKey, Waits, Holds, Covered, Owned;
    forall p | p in s.logs
      ensures Holds(p, s.logs[p], TableFor(s, p))
    {
      var t0 := TableFor(base, p);
      if TableFor(s, p) != t0 {
        var uri := UriOf(p.topic).value;
        if p in base.position {
          AppendKeeps(p, s.logs[p], t0, RowsFor(base, p), MarksFor(base, p), base.position[p]);
        } else {
          UnassignedUntouched(base, p, uri);
        }
      }
    }
  }

  /** Part-way through a flush, crash or not, the stores are as exact as before. */
  lemma PartWayDurable(base: State, s: State)
    requires Inv(base) && PartWay(base, s)
    ensures Durable(s)
  {
    hide FeedRow, UriOf, Data, OfKey, AllWait, AllHold, CommittedSafe;
    assert CommittedSafe(s);
    PartWayHold(base, s);
    forall uri | uri in s.tables
      ensures From(s.tables[uri].rows, s.logs.Keys, uri) && s.tables[uri].markers.Keys <= s.logs.Keys
    {
      assert TableAt(s.tables, uri) == s.tables[uri];
      assert TableAt(base.tables, uri).markers.Keys <= s.logs.Keys
        && MarksAt(base.offsets, uri).Keys <= s.logs.Keys by {
        PositionsKnown(base);
      }
      assert From(TableAt(base.tables, uri).rows, s.logs.Keys, uri);
      if uri in base.batch {
        PositionsKnown(base);
        assert From(base.batch[uri], s.logs.Keys, uri);
      }
    }
  }

  lemma PositionsKnown(s: State)
    requires AllWait(s)
    ensures s.position.Keys <= s.logs.Keys
  {
  }

  /** A partition that is not assigned has nothing in the batch. */
  lemma UnassignedUntouched(s: State, p: Partition, uri: string)
    requires Inv(s) && p in s.logs && p !in s.position && uri in s.batch && UriOf(p.topic) == Some(uri)
    ensures Holds(p, s.logs[p], Appended(TableAt(s.tables, uri), RowsAt(s.batch, uri), MarksAt(s.offsets, uri)))
  {
    hide FeedRow, UriOf, Data, OfKey, Waits, Covered;
    var t0, rows, marks := TableAt(s.tables, uri), RowsAt(s.batch, uri), MarksAt(s.offsets, uri);
    assert TableFor(s, p) == t0 && Holds(p, s.logs[p], t0);
    assert From(rows, s.position.Keys, uri);
    NoneOf(rows, p);
    OfKeyConcat(t0.rows, rows, BySource, p);
    assert p !in marks;
    assert Next(Appended(t0, rows, marks), p) == Next(t0, p);
  }

  lemma {:induction false} NoneOf(entries: seq<Entry>, p: Partition)
    requires forall e | e in entries :: e.source != p
    ensures OfKey(entries, BySource, p) == []
  {
    if entries != [] {
      NoneOf(entries[..|entries| - 1], p);
    }
  }

  lemma CommittedStaysSafe(base: State, a: State, b: State)
    requires Inv(base) && PartWay(base, a)
    requires b == a.(tables := b.tables)
    requires forall uri | uri in base.batch ::
      var full := Appended(TableAt(base.tables, uri), RowsAt(base.batch, uri), MarksAt(base.offsets, uri));
      && (TableAt(b.tables, uri) == full || TableAt(b.tables, uri) == TableAt(base.tables, uri))
      && (TableAt(a.tables, uri) == full ==> TableAt(b.tables, uri) == full)
    requires forall uri | uri !in base.batch :: TableAt(b.tables, uri) == TableAt(a.tables, uri)
    ensures PartWay(base, b)
  {
    hide FeedRow, UriOf, Data, OfKey, Waits, Holds, Owned, Distinct, From;
    forall p | p in b.committed
      ensures Covered(p, b.logs[p], TableFor(b, p), b.committed[p])
    {
      assert Covered(p, a.logs[p], TableFor(a, p), a.committed[p]);
      if TableFor(b, p) != TableFor(a, p) {
        var uri := UriOf(p.topic).value;
        assert TableFor(a, p) == TableAt(base.tables, uri);
        if p in base.position {
          AppendKeeps(p, b.logs[p], TableFor(base, p), RowsFor(base, p), MarksFor(base, p), base.position[p]);
        } else {
          assert p !in MarksAt(base.offsets, uri);
          assert Next(TableFor(b, p), p) == Next(TableFor(a, p), p);
        }
      }
    }
  }

  ghost predicate Written(base: State, s: State) {
    forall uri | uri in base.batch ::
      TableAt(s.tables, uri) == Appended(TableAt(base.tables, uri), RowsAt(base.batch, uri), MarksAt(base.offsets, uri))
  }

  /** Once every table is written, each position is safe to commit and nothing is pending. */
  lemma AllWritten(base: State, s: State)
    requires Inv(base) && PartWay(base, s)
    requires Written(base, s)
    ensures forall p | p in s.position ::
      && Waits(p, s.logs[p], TableFor(s, p), [], map[], s.position[p])
      && Covered(p, s.logs[p], TableFor(s, p), s.position[p])
  {
    hide FeedRow, UriOf, Data, OfKey;
    forall p | p in s.position
      ensures Waits(p, s.logs[p], TableFor(s, p), [], map[], s.position[p])
      ensures Covered(p, s.logs[p], TableFor(s, p), s.position[p])
    {
      AppendKeeps(p, s.logs[p], TableFor(base, p), RowsFor(base, p), MarksFor(base, p), s.position[p]);
      if RowsFor(base, p) == [] && TableFor(s, p) == TableFor(base, p) {
        WaitsForNothing(p, s.logs[p], TableFor(s, p), MarksFor(base, p), s.position[p]);
      }
    }
  }

  lemma WaitsForNothing(p: Partition, log: seq<Payload>, t: Table, marks: Marks, at: nat)
    requires Waits(p, log, t, [], marks, at)
    ensures Waits(p, log, t, [], map[], at) && Covered(p, log, t, at)
  {
  }

  /** The Kafka commit of a fully written batch passes no unwritten record. */
  lemma CommitSafe(base: State, s: State, told: State)
    requires Inv(base) && PartWay(base, s) && told == s.(committed := s.committed + s.stored)
    requires Written(base, s)
    ensures PartWay(base, told)
  {
    hide FeedRow, UriOf, Data, OfKey, Waits, Covered, Durable, Either, Appended;
    AllWritten(base, s);
    forall p | p in told.committed
      ensures p in told.logs && Covered(p, told.logs[p], TableFor(told, p), told.committed[p])
    {
      assert TableFor(told, p) == TableFor(s, p);
      assert told.committed[p] == if p in s.stored then s.stored[p] else s.committed[p];
    }
  }

  /** Dropping a written batch leaves the loop's invariant. */
  lemma DropBatch(base: State, s: State)
    requires Inv(base) && PartWay(base, s) && Written(base, s)
    ensures Inv(Forget(s))
  {
    hide FeedRow, UriOf, Data, OfKey, Waits, Covered, Holds, Durable, CommittedSafe;
    AllWritten(base, s);
    PartWayDurable(base, s);
    SameStores(s, Forget(s));
    forall p | p in s.position
      ensures RowsFor(Forget(s), p) == [] && MarksFor(Forget(s), p) == map[] && TableFor(Forget(s), p) == TableFor(s, p)
    {
      NothingPending(s, p);
    }
  }

  /** The state after the batch is forgotten. */
  function Forget(s: State): State {
    s.(batch := map[], offsets := map[], order := [], count := 0)
  }

  lemma NothingPending(s: State, p: Partition)
    ensures RowsFor(Forget(s), p) == [] && MarksFor(Forget(s), p) == map[] && TableFor(Forget(s), p) == TableFor(s, p)
  {
  }

  /** Trying every table once more moves the stores from one part-way state to another. */
  lemma WriteTables(base: State, s: State, outcomes: seq<Outcome>)
    requires Inv(base) && PartWay(base, s)
    ensures var (tables, ok) := FlushTables(s.tables, s.batch, s.offsets, s.order, outcomes);
      PartWay(base, s.(tables := tables)) && (ok ==> Written(base, s.(tables := tables)))
  {
    hide FeedRow, UriOf, Data, OfKey, Waits, Covered, Holds, Durable, FlushTables;
    BatchFresh(base);
    FlushTablesOnce(base.tables, s.tables, s.batch, s.offsets, s.order, outcomes);
    CommittedStaysSafe(base, s, s.(tables := FlushTables(s.tables, s.batch, s.offsets, s.order, outcomes).0));
  }

  /** A flush, first or retried, either completes exactly or leaves the stores part-way. */
  lemma FlushKeeps(base: State, s: State, plan: Plan)
    requires Inv(base) && PartWay(base, s) && s.batch != map[]
    ensures !Flush(s, plan).1 ==> PartWay(base, Flush(s, plan).0)
    ensures Flush(s, plan).1 ==> Inv(Flush(s, plan).0)
  {
    hide Inv, PartWay, FlushTables, Written;
    WriteTables(base, s, plan.appends);
    var (tables, ok) := FlushTables(s.tables, s.batch, s.offsets, s.order, plan.appends);
    var wrote := s.(tables := tables);
    if ok {
      var told := wrote.(committed := wrote.committed + wrote.stored);
      CommitSafe(base, wrote, told);
      StillWritten(base, wrote, told);
      DropBatch(base, told);
    }
  }

  lemma StillWritten(base: State, wrote: State, told: State)
    requires Written(base, wrote) && told.tables == wrote.tables
    ensures Written(base, told)
  {
  }

  lemma PartWayStart(s: State)
    requires Inv(s)
    ensures PartWay(s, s)
  {
    hide FeedRow, UriOf, Data, OfKey, Waits, Covered, Holds;
  }

  lemma HaltKeeps(s: State)
    requires Durable(s)
    ensures Inv(Halt(s))
  {
    hide FeedRow, UriOf, Data, OfKey, Waits, Covered, Holds;
  }

  /** Leaving the loop part-way through a flush, with one more flush that may fail again, is safe. */
  lemma ShutdownKeeps(base: State, s: State, last: Plan)
    requires Inv(base) && PartWay(base, s) && (s.batch == map[] ==> s == base)
    ensures Inv(Shutdown(s, last))
  {
    hide PartWay, Durable, Pending, Flush;
    if s.batch == map[] {
      assert Flush(s, last).0 == s by { FlushNothing(s, last); }
    } else {
      FlushKeeps(base, s, last);
      if !Flush(s, last).1 {
        PartWayDurable(base, Flush(s, last).0);
      }
    }
    HaltKeeps(Flush(s, last).0);
  }

  lemma FlushNothing(s: State, plan: Plan)
    requires s.batch == map[]
    ensures Flush(s, plan) == (s, true)
  {
  }

  lemma FlushOrStopKeeps(s: State, plan: Plan, last: Plan)
    requires Inv(s)
    ensures Inv(FlushOrStop(s, plan, last))
  {
    hide Inv, Flush, Shutdown;
    PartWayStart(s);
    if s.batch == map[] {
      FlushNothing(s, plan);
    } else {
      FlushKeeps(s, s, plan);
      if !Flush(s, plan).1 {
        ShutdownKeeps(s, Flush(s, plan).0, last);
      }
    }
  }

  // ---- Delivering a record ----

  lemma SameStores(s: State, t: State)
    requires Durable(s) && t.logs == s.logs && t.committed == s.committed && t.tables == s.tables
    ensures Durable(t)
  {
    hide FeedRow, UriOf, Holds, Covered, From;
    assert forall p :: TableFor(t, p) == TableFor(s, p);
  }

  lemma AdvancedShape(s: State, p: Partition)
    requires Shape(s) && HasRecord(s, p)
    ensures Shape(Advance(s, p))
  {
    hide FeedRow, UriOf, Distinct;
    assert Advance(s, p).position.Keys == s.position.Keys;
  }

  lemma AdvanceKeeps(s: State, p: Partition)
    requires Inv(s) && HasRecord(s, p) && Contribution(p, s.logs[p], s.position[p]) == []
    ensures Inv(Advance(s, p))
  {
    hide FeedRow, UriOf, Data, OfKey, Waits, Durable, Contribution, Shape, Next;
    var after := Advance(s, p);
    TakeKeeps(p, s.logs[p], TableFor(s, p), RowsFor(s, p), MarksFor(s, p), s.position[p]);
    SameStores(s, after);
    AdvancedShape(s, p);
    assert forall q ::
      && TableFor(after, q) == TableFor(s, q) && RowsFor(after, q) == RowsFor(s, q)
      && MarksFor(after, q) == MarksFor(s, q);
  }

  lemma OtherWaits(q: Partition, log: seq<Payload>, t: Table, rows: seq<Entry>, marks: Marks, at: nat, e: Entry, o: nat)
    requires e.source != q
    ensures Waits(q, log, t, rows, marks, at) ==> Waits(q, log, t, rows + [e], marks[e.source := o], at)
  {
    hide FeedRow, Data;
    OfKeyConcat(rows, [e], BySource, q);
    NoneOf([e], q);
  }

  lemma TakenWaits(s: State, p: Partition, row: Row, uri: string, after: State, q: Partition)
    requires Inv(s) && HasRecord(s, p) && q in s.position
    requires UriOf(p.topic) == Some(uri) && Contribution(p, s.logs[p], s.position[p]) == [Entry(p, s.position[p], row)]
    requires after == Take(Advance(s, p), uri, Entry(p, s.position[p], row))
    ensures Waits(q, after.logs[q], TableFor(after, q), RowsFor(after, q), MarksFor(after, q), after.position[q])
  {
    hide FeedRow, UriOf, Data, OfKey, Waits, Covered, Holds, Contribution;
    var at := s.position[p];
    var e := Entry(p, at, row);
    TakeKeeps(p, s.logs[p], TableFor(s, p), RowsFor(s, p), MarksFor(s, p), at);
    assert MarksAt(after.offsets, uri) == MarksAt(s.offsets, uri)[p := at];
    if q != p && UriOf(q.topic) == Some(uri) {
      OtherWaits(q, s.logs[q], TableFor(s, q), RowsFor(s, q), MarksFor(s, q), s.position[q], e, at);
    }
  }

  lemma OrderExtends(order: seq<string>, uri: string)
    requires Distinct(order) && uri !in order
    ensures Distinct(order + [uri]) && forall u :: u in order + [uri] <==> u in order || u == uri
  {
  }

  lemma FromExtends(entries: seq<Entry>, e: Entry, known: set<Partition>, uri: string)
    requires (entries == [] || From(entries, known, uri)) && e.source in known && UriOf(e.source.topic) == Some(uri)
    ensures From(entries + [e], known, uri)
  {
    hide FeedRow, UriOf;
  }

  lemma TakenShape(s: State, p: Partition, e: Entry, uri: string)
    requires Shape(s) && HasRecord(s, p) && UriOf(p.topic) == Some(uri) && e.source == p && s.running
    ensures Shape(Take(Advance(s, p), uri, e))
  {
    hide FeedRow, UriOf, From, Distinct;
    var after := Take(Advance(s, p), uri, e);
    assert after.position.Keys == s.position.Keys;
    if uri in s.batch {
      FromExtends(s.batch[uri], e, s.position.Keys, uri);
    } else {
      FromExtends([], e, s.position.Keys, uri);
    }
    if uri !in s.batch {
      OrderExtends(s.order, uri);
    }
  }

  lemma TakeStepKeeps(s: State, p: Partition, row: Row, uri: string)
    requires Inv(s) && HasRecord(s, p) && s.running
    requires UriOf(p.topic) == Some(uri) && Contribution(p, s.logs[p], s.position[p]) == [Entry(p, s.position[p], row)]
    ensures Inv(Take(Advance(s, p), uri, Entry(p, s.position[p], row)))
  {
    hide FeedRow, UriOf, Data, OfKey, Waits, Durable, Contribution, Shape;
    var after := Take(Advance(s, p), uri, Entry(p, s.position[p], row));
    forall q | q in after.position
      ensures q in after.logs
      ensures Waits(q, after.logs[q], TableFor(after, q), RowsFor(after, q), MarksFor(after, q), after.position[q])
    {
      TakenWaits(s, p, row, uri, after, q);
    }
    TakenShape(s, p, Entry(p, s.position[p], row), uri);
    SameStores(s, after);
  }

  lemma FeedTopic(topic: string, payload: Payload)
    ensures FeedRow(topic, payload).Some? ==> UriOf(topic).Some?
  {
    hide ParseTopic, DataColumns, OpOf, DeletedOf;
  }

  lemma DeliverKeeps(s: State, p: Partition, elapsed: bool, plan: Plan, last: Plan, limit: nat)
    requires Inv(s) && HasRecord(s, p) && s.running
    ensures Inv(DeliverStep(s, p, elapsed, plan, last, limit))
  {
    hide Inv, FeedRow, UriOf, Flush, Shutdown, FlushOrStop, Take;
    var payload := s.logs[p][s.position[p]];
    FeedTopic(p.topic, payload);
    GarbledCarriesNothing(p.topic);
    match FeedRow(p.topic, payload)
    case None =>
      AdvanceKeeps(s, p);
      if payload == Garbled {
        StopKeeps(Advance(s, p), last);
      }
    case Some(row) =>
      var uri := UriOf(p.topic).value;
      TakeStepKeeps(s, p, row, uri);
      FlushOrStopKeeps(Take(Advance(s, p), uri, Entry(p, s.position[p], row)), plan, last);
  }

  lemma GarbledCarriesNothing(topic: string)
    ensures FeedRow(topic, Garbled) == None
  {
  }

  lemma StopKeeps(s: State, last: Plan)
    requires Inv(s)
    ensures Inv(Shutdown(s, last))
  {
    hide Inv, Shutdown, PartWay;
    PartWayStart(s);
    ShutdownKeeps(s, s, last);
  }

  // ---- The outside world ----

  lemma SameProcess(s: State, t: State)
    requires Shape(s) && t == s.(logs := t.logs, committed := t.committed, tables := t.tables)
    ensures Shape(t)
  {
    hide FeedRow, UriOf, From, Distinct;
  }

  /** `after` is `s` with `x` appended to the log of `p`. */
  ghost predicate Grown(s: State, after: State, p: Partition, x: Payload) {
    after == s.(logs := s.logs[p := (if p in s.logs then s.logs[p] else []) + [x]])
  }

  lemma GrownHold(s: State, after: State, p: Partition, x: Payload)
    requires Inv(s) && Grown(s, after, p, x)
    ensures AllHold(after)
  {
    hide FeedRow, UriOf, Data, OfKey, Waits, Covered, Holds, Owned, Shape;
    assert forall q :: TableFor(after, q) == TableFor(s, q);
    if p in s.logs {
      LogGrows(p, s.logs[p], x, TableFor(s, p), [], map[], 0);
    } else {
      NewPartition(s, p, [x]);
      assert after.logs[p] == [x];
    }
  }

  lemma GrownCommitted(s: State, after: State, p: Partition, x: Payload)
    requires Inv(s) && Grown(s, after, p, x)
    ensures CommittedSafe(after)
  {
    hide FeedRow, UriOf, Data, OfKey, Waits, Covered, Holds, Owned, Shape;
    assert forall q :: TableFor(after, q) == TableFor(s, q);
    if p in s.committed {
      LogGrows(p, s.logs[p], x, TableFor(s, p), [], map[], s.committed[p]);
    }
  }

  lemma GrownWait(s: State, after: State, p: Partition, x: Payload)
    requires Inv(s) && Grown(s, after, p, x)
    ensures AllWait(after)
  {
    hide FeedRow, UriOf, Data, OfKey, Waits, Covered, Holds, Owned, Shape;
    assert forall q ::
      && TableFor(after, q) == TableFor(s, q) && RowsFor(after, q) == RowsFor(s, q)
      && MarksFor(after, q) == MarksFor(s, q);
    if p in s.position {
      LogGrows(p, s.logs[p], x, TableFor(s, p), RowsFor(s, p), MarksFor(s, p), s.position[p]);
    }
  }

  lemma ProduceKeeps(s: State, p: Partition, x: Payload)
    requires Inv(s)
    ensures Inv(Step(s, Produce(p, x), 0))
  {
    hide FeedRow, UriOf, AllHold, CommittedSafe, AllWait, Shape, Owned;
    var after := Step(s, Produce(p, x), 0);
    GrownHold(s, after, p, x);
    GrownCommitted(s, after, p, x);
    GrownWait(s, after, p, x);
    LogsGrow(s, after);
    SameProcess(s, after);
  }

  lemma LogsGrow(s: State, t: State)
    requires Owned(s) && t.tables == s.tables && s.logs.Keys <= t.logs.Keys
    ensures Owned(t)
  {
    hide FeedRow, UriOf;
  }

  lemma NewPartition(s: State, p: Partition, log: seq<Payload>)
    requires Inv(s) && p !in s.logs
    ensures Holds(p, log, TableFor(s, p))
  {
    hide FeedRow, UriOf, Waits, Covered;
    NoneOf(TableFor(s, p).rows, p);
  }

  /** Moving a committed offset is harmless exactly when it skips no unwritten data record. */
  lemma ResetExact(s: State, p: Partition, offset: nat)
    requires Inv(s) && p in s.logs && offset <= |s.logs[p]|
    ensures Inv(Step(s, Reset(p, offset), 0)) <==> Data(p, s.logs[p], Next(TableFor(s, p), p), offset) == []
  {
    hide FeedRow, UriOf, Data, OfKey, Waits, Holds, Owned, Shape, From, Next;
    var after := Step(s, Reset(p, offset), 0);
    assert forall q ::
      && TableFor(after, q) == TableFor(s, q) && RowsFor(after, q) == RowsFor(s, q)
      && MarksFor(after, q) == MarksFor(s, q);
    LogsGrow(s, after);
    SameProcess(s, after);
    assert AllWait(after) && AllHold(after);
    ResetCommitted(s, p, offset);
  }

  lemma ResetIs(s: State, p: Partition, offset: nat, limit: nat)
    ensures Step(s, Reset(p, offset), limit) ==
      s.(committed := if p in s.logs && offset <= |s.logs[p]| then s.committed[p := offset] else s.committed)
  {
  }

  lemma ResetCommitted(s: State, p: Partition, offset: nat)
    requires CommittedSafe(s) && p in s.logs && offset <= |s.logs[p]|
    ensures CommittedSafe(Step(s, Reset(p, offset), 0)) <==> Covered(p, s.logs[p], TableFor(s, p), offset)
  {
    hide FeedRow, UriOf, Covered;
    var after := Step(s, Reset(p, offset), 0);
    assert forall q :: TableFor(after, q) == TableFor(s, q);
    assert after.committed[p] == offset;
  }

  /** Moving a committed offset backwards skips nothing. */
  lemma BackwardResetSafe(s: State, p: Partition, offset: nat)
    requires Inv(s) && p in s.logs
    requires offset == 0 || (p in s.committed && offset <= s.committed[p])
    ensures Inv(Step(s, Reset(p, offset), 0))
  {
    hide FeedRow, UriOf, Data, OfKey, Waits, Holds;
    var n := Next(TableFor(s, p), p);
    if offset == 0 {
      EmptyRange(p, s.logs[p], n, 0);
    } else {
      NoDataInside(p, s.logs[p], n, s.committed[p], n, offset);
    }
    ResetExact(s, p, offset);
  }

  // ---- Assignment and rebalance ----

  /** No partition resumes at or below a data record that Delta already holds. */
  ghost predicate ResumesPast(s: State, unreadable: set<Partition>) {
    forall p | p in s.logs && Next(TableFor(s, p), p) <= |s.logs[p]| ::
      Data(p, s.logs[p], Resume(s, p, unreadable), Next(TableFor(s, p), p)) == []
  }

  lemma ResumeCovered(s: State, p: Partition, unreadable: set<Partition>)
    requires Durable(s) && p in s.logs
    ensures Covered(p, s.logs[p], TableFor(s, p), Resume(s, p, unreadable))
  {
    hide FeedRow, UriOf, Data, OfKey, Owned;
    var n := Next(TableFor(s, p), p);
    assert Holds(p, s.logs[p], TableFor(s, p));
    EmptyRange(p, s.logs[p], n, n);
    EmptyRange(p, s.logs[p], n, 0);
  }

  lemma AssignWhenIdle(s: State, unreadable: set<Partition>)
    requires Inv(s) && s.batch == map[] && ResumesPast(s, unreadable)
    ensures Inv(Assign(s, unreadable))
  {
    hide FeedRow, UriOf, Data, OfKey, Resume, Covered, Waits, Owned, CommittedSafe, From, Next;
    var after := Assign(s, unreadable);
    assert forall q ::
      TableFor(after, q) == TableFor(s, q) && RowsFor(after, q) == [] && MarksFor(after, q) == map[] by {
      assert s.offsets == map[];
    }
    SameStores(s, after);
    forall p | p in after.position
      ensures p in after.logs && Waits(p, after.logs[p], TableFor(after, p), [], map[], after.position[p])
    {
      ResumeCovered(s, p, unreadable);
      assert Holds(p, s.logs[p], TableFor(s, p));
      OfNothing(p);
      CoveredWaits(p, s.logs[p], TableFor(s, p), after.position[p]);
    }
  }

  lemma OfNothing(p: Partition)
    ensures OfKey([], BySource, p) == []
  {
  }

  lemma CoveredWaits(p: Partition, log: seq<Payload>, t: Table, at: nat)
    requires Covered(p, log, t, at) && Next(t, p) <= |log| && Data(p, log, at, Next(t, p)) == []
    ensures Waits(p, log, t, [], map[], at)
  {
    hide FeedRow, Data;
  }

  lemma AssignWhilePending(s: State, unreadable: set<Partition>)
    requires Inv(s) && Inv(Assign(s, unreadable))
    ensures s.batch == map[]
  {
    hide FeedRow, UriOf, Data, OfKey, Resume, Durable;
    var after := Assign(s, unreadable);
    if s.batch != map[] {
      var uri :| uri in s.batch;
      var e := s.batch[uri][0];
      OfKeyIn(s.batch[uri], BySource, e.source);
      assert e in s.batch[uri];
      var p := e.source;
      assert RowsFor(after, p) == s.batch[uri];
      assert Waits(p, after.logs[p], TableFor(after, p), RowsFor(after, p), MarksFor(after, p), after.position[p]);
      assert TableFor(after, p) == TableFor(s, p);
      ResumeCovered(s, p, unreadable);
      assert false;
    }
  }

  /** A (re)assignment is safe exactly when nothing is pending and every partition resumes past what Delta holds. */
  lemma AssignExact(s: State, unreadable: set<Partition>)
    requires Inv(s)
    ensures Inv(Assign(s, unreadable)) <==> s.batch == map[] && ResumesPast(s, unreadable)
  {
    hide FeedRow, UriOf, Data, OfKey, Resume, Durable, Shape;
    var after := Assign(s, unreadable);
    if Inv(after) {
      AssignWhilePending(s, unreadable);
      forall p | p in s.logs && Next(TableFor(s, p), p) <= |s.logs[p]|
        ensures Data(p, s.logs[p], Resume(s, p, unreadable), Next(TableFor(s, p), p)) == []
      {
        assert p in after.position && TableFor(after, p) == TableFor(s, p);
      }
    } else if s.batch == map[] && ResumesPast(s, unreadable) {
      AssignWhenIdle(s, unreadable);
    }
  }

  /** With every marker readable, only a pending batch can make an assignment unsafe. */
  lemma ReadableAssign(s: State)
    requires Inv(s)
    ensures ResumesPast(s, {})
  {
    hide FeedRow, UriOf, Data, OfKey;
    forall p | p in s.logs && Next(TableFor(s, p), p) <= |s.logs[p]|
      ensures Data(p, s.logs[p], Resume(s, p, {}), Next(TableFor(s, p), p)) == []
    {
      EmptyRange(p, s.logs[p], Resume(s, p, {}), Next(TableFor(s, p), p));
    }
  }

  // ---- Runs ----

  /** The steps the guarantee covers: resets skip nothing unwritten, assignments meet the condition above. */
  ghost predicate Admissible(s: State, ev: Event) {
    match ev
    case Rebalance(unreadable) => s.batch == map[] && ResumesPast(s, unreadable)
    case Reset(p, offset) =>
      p in s.logs && Next(TableFor(s, p), p) <= |s.logs[p]| && offset <= |s.logs[p]| ==>
        Data(p, s.logs[p], Next(TableFor(s, p), p), offset) == []
    case _ => true
  }

  ghost predicate AdmissibleRun(s: State, evs: seq<Event>, limit: nat)
    decreases |evs|
  {
    evs == [] || (Admissible(s, evs[0]) && AdmissibleRun(Step(s, evs[0], limit), evs[1..], limit))
  }

  /** Every covered step keeps the invariant. */
  lemma StepKeeps(s: State, ev: Event, limit: nat)
    requires Inv(s) && Admissible(s, ev)
    ensures Inv(Step(s, ev, limit))
  {
    hide Durable, Pending, DeliverStep, Shutdown, FlushOrStop, Assign, Halt;
    match ev
    case Quiet(elapsed, plan, last) => FlushOrStopKeeps(s, plan, last);
    case Notice =>
    case Fatal(last) => StopKeeps(s, last);
    case Deliver(p, elapsed, plan, last) =>
      if s.running && HasRecord(s, p) {
        DeliverKeeps(s, p, elapsed, plan, last, limit);
      }
    case Interrupt(last) => StopKeeps(s, last);
    case Kill => HaltKeeps(s);
    case Rebalance(unreadable) => AssignExact(s, unreadable);
    case Produce(p, x) => ProduceKeeps(s, p, x);
    case Reset(p, offset) => ResetKeeps(s, p, offset);
  }

  lemma ResetKeeps(s: State, p: Partition, offset: nat)
    requires Inv(s) && Admissible(s, Reset(p, offset))
    ensures Inv(Step(s, Reset(p, offset), 0))
  {
    hide Pending, CommittedSafe, Owned, FeedRow, UriOf, Data;
    if p in s.logs && offset <= |s.logs[p]| {
      assert Holds(p, s.logs[p], TableFor(s, p));
      ResetExact(s, p, offset);
    }
  }

  lemma {:induction false} RunKeeps(s: State, evs: seq<Event>, limit: nat)
    requires Inv(s) && AdmissibleRun(s, evs, limit)
    ensures Inv(Run(s, evs, limit))
    decreases |evs|
  {
    hide Inv, Admissible, Step;
    if evs != [] {
      StepKeeps(s, evs[0], limit);
      RunKeeps(Step(s, evs[0], limit), evs[1..], limit);
    }
  }

  /** Nothing written, nothing committed, no process; the logs may hold anything. */
  ghost predicate Initial(s: State) {
    s.tables == map[] && s.committed == map[] && s == Halt(s)
  }

  /** Table rows of `p` are its data records up to the marker: each once, in offset order, with its own row. */
  ghost predicate ExactlyOnceIn(p: Partition, log: seq<Payload>, t: Table) {
    && Next(t, p) <= |log|
    && (forall i, j | 0 <= i < j < |OfKey(t.rows, BySource, p)| ::
          OfKey(t.rows, BySource, p)[i].offset < OfKey(t.rows, BySource, p)[j].offset)
    && (forall e | e in OfKey(t.rows, BySource, p) ::
          e.source == p && e.offset < Next(t, p) && FeedRow(p.topic, log[e.offset]) == Some(e.row))
    && (forall o: nat | o < Next(t, p) && FeedRow(p.topic, log[o]).Some? ::
          Entry(p, o, FeedRow(p.topic, log[o]).value) in OfKey(t.rows, BySource, p))
  }

  lemma HoldsExactly(p: Partition, log: seq<Payload>, t: Table)
    requires Holds(p, log, t)
    ensures ExactlyOnceIn(p, log, t)
  {
    hide FeedRow, OfKey;
    DataExact(p, log, 0, Next(t, p));
  }

  lemma InvExact(s: State, p: Partition)
    requires Inv(s) && p in s.logs
    ensures ExactlyOnceIn(p, s.logs[p], TableFor(s, p))
  {
    hide FeedRow, UriOf, OfKey, Data, TableFor, Pending, Owned, CommittedSafe;
    HoldsExactly(p, s.logs[p], TableFor(s, p));
  }

  /** Exactly-once over every run, and no committed offset ever passes an unwritten data record. */
  lemma ExactlyOnce(s0: State, evs: seq<Event>, limit: nat, p: Partition)
    requires Initial(s0) && AdmissibleRun(s0, evs, limit)
    requires p in Run(s0, evs, limit).logs
    ensures var s := Run(s0, evs, limit);
      && ExactlyOnceIn(p, s.logs[p], TableFor(s, p))
      && (p in s.committed ==>
            && s.committed[p] <= |s.logs[p]|
            && forall o | Next(TableFor(s, p), p) <= o < s.committed[p] :: FeedRow(p.topic, s.logs[p][o]) == None)
  {
    hide FeedRow, Step, OfKey, AdmissibleRun, Run;
    StartsExact(s0);
    RunKeeps(s0, evs, limit);
    var s := Run(s0, evs, limit);
    InvExact(s, p);
    if p in s.committed {
      DataExact(p, s.logs[p], Next(TableFor(s, p), p), s.committed[p]);
    }
  }

  lemma StartsExact(s: State)
    requires Initial(s)
    ensures Inv(s)
  {
    hide FeedRow, UriOf;
  }

  /** Once a partition's log is drained and nothing is pending, its table rows are all its data records. */
  lemma DrainedIsComplete(s: State, p: Partition)
    requires Inv(s) && p in s.position && s.position[p] == |s.logs[p]| && s.batch == map[]
    ensures OfKey(TableFor(s, p).rows, BySource, p) == Data(p, s.logs[p], 0, |s.logs[p]|)
  {
    hide FeedRow, UriOf, Data, OfKey;
    var n := Next(TableFor(s, p), p);
    OfNothing(p);
    DataSplit(p, s.logs[p], 0, n, |s.logs[p]|);
  }

  // ---- An interrupt between the poll and the batch ----

  /** The record at the position was polled but never batched when the process shut down. */
  function LateInterrupt(s: State, p: Partition, last: Plan): State
    requires HasRecord(s, p)
  {
    Shutdown(Advance(s, p), last)
  }

  /** The first `n` outcomes are all successes. */
  predicate AllDone(n: nat, outcomes: seq<Outcome>) {
    n == 0 || (First(outcomes) == Done && AllDone(n - 1, Rest(outcomes)))
  }

  /** Something is pending, every append of the flush works, and the commit takes effect. */
  predicate CommitsOffsets(s: State, last: Plan) {
    s.batch != map[] && AllDone(|s.order|, last.appends) && last.commit != Failed
  }

  lemma {:induction false} WritesAll(tables: map<string, Table>, batch: map<string, seq<Entry>>,
      offsets: map<string, Marks>, order: seq<string>, outcomes: seq<Outcome>)
    requires forall uri | uri in order :: RowsAt(batch, uri) != []
    ensures FlushTables(tables, batch, offsets, order, outcomes).1 <==> AllDone(|order|, outcomes)
    decreases |order|
  {
    hide AlreadyApplied;
    if order != [] {
      var uri := order[0];
      assert uri in order;
      var t := AppendTo(TableAt(tables, uri), RowsAt(batch, uri), MarksAt(offsets, uri), First(outcomes)).0;
      WritesAll(Put(tables, uri, t), batch, offsets, order[1..], Rest(outcomes));
    }
  }

  lemma CommitsExactly(s: State, last: Plan)
    requires Shape(s)
    ensures Told(s, last) <==> CommitsOffsets(s, last)
  {
    hide FeedRow, UriOf, From, FlushTables, Distinct;
    WritesAll(s.tables, s.batch, s.offsets, s.order, last.appends);
  }

  /** The final flush gets as far as the Kafka commit. */
  predicate Told(s: State, last: Plan) {
    && s.batch != map[]
    && FlushTables(s.tables, s.batch, s.offsets, s.order, last.appends).1
    && last.commit != Failed
  }

  lemma FlushIs(s: State, plan: Plan)
    requires s.batch != map[]
    ensures var written := FlushTables(s.tables, s.batch, s.offsets, s.order, plan.appends);
      Flush(s, plan) == Ended(s, written.0, written.1, plan.commit) &&
      (Told(s, plan) <==> written.1 && plan.commit != Failed)
  {
    hide FlushTables;
  }

  lemma LateInterruptUncommitted(s: State, p: Partition, last: Plan)
    requires Inv(s) && HasRecord(s, p) && !Told(s, last)
    ensures Inv(LateInterrupt(s, p, last))
  {
    hide Durable, Pending, FlushTables, PartWay;
    var wrote := Flush(s, last).0;
    PartWayStart(s);
    if s.batch != map[] {
      WriteTables(s, s, last.appends);
      PartWayDurable(s, s.(tables := FlushTables(s.tables, s.batch, s.offsets, s.order, last.appends).0));
    }
    HaltKeeps(wrote);
    assert LateInterrupt(s, p, last) == Halt(wrote);
  }

  lemma LateInterruptCommitted(s: State, p: Partition, last: Plan)
    requires Inv(s) && HasRecord(s, p) && Told(s, last)
    requires Contribution(p, s.logs[p], s.position[p]) != []
    ensures !Inv(LateInterrupt(s, p, last))
    ensures var after := LateInterrupt(s, p, last);
      && p in after.committed && after.committed[p] == s.position[p] + 1
      && Next(TableFor(after, p), p) <= s.position[p]
  {
    hide FeedRow, UriOf, Contribution, FlushTables, Durable, Pending, Told, LateInterrupt, Next, Inv, Appended;
    var wrote := s.(tables := FlushTables(s.tables, s.batch, s.offsets, s.order, last.appends).0);
    PartWayStart(s);
    WriteTables(s, s, last.appends);
    BelowPosition(s, p);
    CommittedOutcome(s, p, last);
    var after := LateInterrupt(s, p, last);
    assert TableFor(after, p) == TableFor(wrote, p);
    PassesData(after, p, s.position[p]);
  }

  lemma CommittedOutcome(s: State, p: Partition, last: Plan)
    requires HasRecord(s, p) && Told(s, last)
    ensures var after := LateInterrupt(s, p, last);
      && after.tables == FlushTables(s.tables, s.batch, s.offsets, s.order, last.appends).0
      && after.logs == s.logs
      && p in after.committed && after.committed[p] == s.position[p] + 1
  {
    hide FlushTables, TableFor, Contribution, Ended;
    var moved := Advance(s, p);
    FlushIs(moved, last);
    EndedShape(moved, FlushTables(s.tables, s.batch, s.offsets, s.order, last.appends).0, true, last.commit);
    assert p in moved.stored && moved.stored[p] == s.position[p] + 1;
  }

  /** A committed offset just past an unwritten data record breaks the invariant. */
  lemma PassesData(s: State, p: Partition, at: nat)
    requires p in s.logs && at < |s.logs[p]| && Contribution(p, s.logs[p], at) != []
    requires p in s.committed && s.committed[p] == at + 1 && Next(TableFor(s, p), p) <= at
    ensures !Inv(s)
  {
    hide FeedRow, UriOf, Data, OfKey, Contribution, Owned, Shape, AllWait, AllHold;
    var log, n := s.logs[p], Next(TableFor(s, p), p);
    OneRecord(p, log, at);
    DataSplit(p, log, n, at, at + 1);
  }

  lemma MarksBelow(p: Partition, log: seq<Payload>, t: Table, rows: seq<Entry>, marks: Marks, at: nat)
    requires at < |log| && Waits(p, log, t, rows, marks, at) && Contribution(p, log, at) != []
    ensures Next(t, p) <= at && Next(Appended(t, rows, marks), p) <= at
  {
    hide FeedRow, Data, OfKey, Contribution;
    OneRecord(p, log, at);
    var n := Next(t, p);
    if at < n {
      DataSplit(p, log, at, at + 1, n);
    }
    if p in marks {
      NoDataAfterLast(p, log, n, at);
    }
  }

  /** With a data record still at the position, the marker is below it and so is everything pending. */
  lemma BelowPosition(s: State, p: Partition)
    requires Inv(s) && HasRecord(s, p) && Contribution(p, s.logs[p], s.position[p]) != []
    ensures Next(TableFor(s, p), p) <= s.position[p]
    ensures Next(Appended(TableFor(s, p), RowsFor(s, p), MarksFor(s, p)), p) <= s.position[p]
  {
    hide Waits, Contribution, UriOf, Durable, Shape;
    MarksBelow(p, s.logs[p], TableFor(s, p), RowsFor(s, p), MarksFor(s, p), s.position[p]);
  }

  /** The partition has a marker in Delta, or one pending. */
  predicate Marked(s: State, p: Partition) {
    p in TableFor(s, p).markers || p in MarksFor(s, p)
  }

  lemma LateMarkers(s: State, p: Partition, last: Plan)
    requires Inv(s) && HasRecord(s, p) && Told(s, last)
    ensures p in TableFor(LateInterrupt(s, p, last), p).markers <==> Marked(s, p)
  {
    hide FeedRow, UriOf, FlushTables, Durable, Pending, LateInterrupt, Inv, CommittedSafe;
    PartWayStart(s);
    WriteTables(s, s, last.appends);
    CommittedOutcome(s, p, last);
    PendingWhole(s, p);
    var wrote := s.(tables := FlushTables(s.tables, s.batch, s.offsets, s.order, last.appends).0);
    assert Written(s, wrote) && TableFor(LateInterrupt(s, p, last), p) == TableFor(wrote, p);
  }

  lemma PendingWhole(s: State, p: Partition)
    requires Inv(s)
    ensures MarksFor(s, p) != map[] ==> UriOf(p.topic).Some? && UriOf(p.topic).value in s.batch
  {
    hide FeedRow, UriOf, Durable, AllWait, From;
  }

  /**
   * Such an interrupt is harmless exactly when the polled record carries no data or the offsets are not committed;
   * otherwise the next start skips the record exactly when its partition had no marker, in Delta or pending.
   */
  lemma LateInterruptExact(s: State, p: Partition, last: Plan)
    requires Inv(s) && HasRecord(s, p)
    ensures Inv(LateInterrupt(s, p, last)) <==>
      Contribution(p, s.logs[p], s.position[p]) == [] || !CommitsOffsets(s, last)
    ensures Contribution(p, s.logs[p], s.position[p]) != [] && CommitsOffsets(s, last) ==>
      (Resume(LateInterrupt(s, p, last), p, {}) > s.position[p] <==> !Marked(s, p))
  {
    hide Inv, Contribution, Told, CommitsOffsets, FeedRow, UriOf, Shutdown, TableFor, MarksFor, Marked;
    assert Told(s, last) <==> CommitsOffsets(s, last) by {
      InvShape(s);
      CommitsExactly(s, last);
    }
    if Contribution(p, s.logs[p], s.position[p]) == [] {
      AdvanceKeeps(s, p);
      StopKeeps(Advance(s, p), last);
    } else if Told(s, last) {
      LateInterruptCommitted(s, p, last);
      CommittedOutcome(s, p, last);
      LateMarkers(s, p, last);
    } else {
      LateInterruptUncommitted(s, p, last);
    }
  }

  lemma InvShape(s: State)
    requires Inv(s)
    ensures Shape(s)
  {
    hide Durable, Shape;
  }
}
