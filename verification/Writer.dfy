/** Batches of feed rows as column tables, and what a reader sees after any sequence of appends. */
module Writer {
  import opened Wrappers
  import opened Sequences
  import opened Transform

  /** A row with its columns in the order the message listed them. */
  datatype Record = Record(order: seq<string>, cells: Row) {
    ghost predicate Valid() {
      forall k :: k in order <==> k in cells
    }
  }

  /** Columns in order, each with one value per row. */
  datatype ColumnTable = ColumnTable(columns: seq<string>, data: map<string, seq<Cell>>)

  /** Objects and arrays become JSON text. */
  function NormalizeValue(c: Cell): Cell {
    match c case Nested(j) => Str(j) case _ => c
  }

  function AddNew(columns: seq<string>, keys: seq<string>): seq<string> {
    if keys == [] then columns
    else
      var before, k := AddNew(columns, keys[..|keys| - 1]), keys[|keys| - 1];
      if k in before then before else before + [k]
  }

  /** Every column of every row, in the order first seen. */
  function FirstSeen(rows: seq<Record>): seq<string> {
    if rows == [] then [] else AddNew(FirstSeen(rows[..|rows| - 1]), rows[|rows| - 1].order)
  }

  function ValuesOf(rows: seq<Record>, c: string): seq<Cell> {
    seq(|rows|, i requires 0 <= i < |rows| => NormalizeValue(Get(rows[i].cells, c)))
  }

  predicate AllNull(vals: seq<Cell>) {
    forall i | 0 <= i < |vals| :: vals[i] == Null
  }

  /** The columns with at least one value, with their values. */
  function Filled(columns: seq<string>, rows: seq<Record>): ColumnTable {
    if columns == [] then ColumnTable([], map[])
    else
      var before, c := Filled(columns[..|columns| - 1], rows), columns[|columns| - 1];
      var vals := ValuesOf(rows, c);
      if AllNull(vals) then before
      else ColumnTable(before.columns + [c], before.data[c := vals])
  }

  method CollectColumns(rows: seq<Record>) returns (columns: seq<string>)
    ensures columns == FirstSeen(rows)
  {
    columns := [];
    var seen: set<string> := {};
    for i := 0 to |rows|
      invariant columns == FirstSeen(rows[..i]) && forall k :: k in seen <==> k in columns
    {
      assert rows[..i + 1][..i] == rows[..i];
      var keys := rows[i].order;
      ghost var before := columns;
      for j := 0 to |keys|
        invariant columns == AddNew(before, keys[..j]) && forall k :: k in seen <==> k in columns
      {
        assert keys[..j + 1][..j] == keys[..j];
        if keys[j] !in seen {
          seen := seen + {keys[j]};
          columns := columns + [keys[j]];
        }
      }
      assert keys[..|keys|] == keys;
    }
    assert rows[..|rows|] == rows;
  }

  // ---- Columns ----

  ghost predicate NoRepeats(s: seq<string>) {
    forall i, j | 0 <= i < j < |s| :: s[i] != s[j]
  }

  lemma {:induction false} AddNewExact(columns: seq<string>, keys: seq<string>)
    requires NoRepeats(columns)
    ensures NoRepeats(AddNew(columns, keys)) && columns <= AddNew(columns, keys)
    ensures forall k :: k in AddNew(columns, keys) <==> k in columns || k in keys
    decreases |keys|
  {
    if keys != [] {
      AddNewExact(columns, keys[..|keys| - 1]);
      assert keys == keys[..|keys| - 1] + [keys[|keys| - 1]];
    }
  }

  /** Each column of the batch is listed once, and columns seen earlier stay in front. */
  lemma {:induction false} FirstSeenExact(rows: seq<Record>)
    ensures NoRepeats(FirstSeen(rows))
    ensures forall k :: k in FirstSeen(rows) <==> exists r | r in rows :: k in r.order
    ensures rows != [] ==> FirstSeen(rows[..|rows| - 1]) <= FirstSeen(rows)
    decreases |rows|
  {
    if rows != [] {
      FirstSeenExact(rows[..|rows| - 1]);
      AddNewExact(FirstSeen(rows[..|rows| - 1]), rows[|rows| - 1].order);
      assert rows == rows[..|rows| - 1] + [rows[|rows| - 1]];
    }
  }

  lemma {:induction false} FilledExact(columns: seq<string>, rows: seq<Record>, c: string)
    ensures c in Filled(columns, rows).columns <==> c in Filled(columns, rows).data
    ensures c in Filled(columns, rows).data <==> c in columns && !AllNull(ValuesOf(rows, c))
    ensures c in Filled(columns, rows).data ==> Filled(columns, rows).data[c] == ValuesOf(rows, c)
    decreases |columns|
  {
    hide AllNull, ValuesOf;
    if columns != [] {
      FilledExact(columns[..|columns| - 1], rows, c);
      assert columns == columns[..|columns| - 1] + [columns[|columns| - 1]];
    }
  }

  // ---- Reading back ----

  /** A column table has as many rows as its columns; without columns it has none. */
  function NumRows(t: ColumnTable, written: nat): nat {
    if t.columns == [] then 0 else written
  }

  /** What a reader finds in column `c` of row `i`: null where the batch lacks the column. */
  function CellAt(t: ColumnTable, i: nat, c: string): Cell {
    if c in t.data && i < |t.data[c]| then t.data[c][i] else Null
  }

  function Stored(batch: seq<Record>): ColumnTable { Filled(FirstSeen(batch), batch) }

  predicate HasValue(r: Record) {
    exists c | c in r.cells :: c in r.order && r.cells[c] != Null
  }

  /** A batch keeps all its rows exactly when it is empty or some cell in it has a value. */
  lemma RowsKeptExactly(batch: seq<Record>)
    requires forall r | r in batch :: r.Valid()
    ensures NumRows(Stored(batch), |batch|) == |batch| <==> batch == [] || exists r | r in batch :: HasValue(r)
  {
    hide Filled, FirstSeen, NormalizeValue;
    FirstSeenExact(batch);
    var t := Stored(batch);
    if r :| r in batch && HasValue(r) {
      var c :| c in r.cells && c in r.order && r.cells[c] != Null;
      var i :| 0 <= i < |batch| && batch[i] == r;
      NormalizeKeepsNull(r.cells[c]);
      assert ValuesOf(batch, c)[i] != Null;
      FilledExact(FirstSeen(batch), batch, c);
    }
    if t.columns != [] {
      var c := t.columns[0];
      FilledExact(FirstSeen(batch), batch, c);
      ColumnHasValue(batch, c);
    }
  }

  lemma ColumnHasValue(batch: seq<Record>, c: string)
    requires !AllNull(ValuesOf(batch, c)) && forall r | r in batch :: r.Valid()
    ensures exists r | r in batch :: HasValue(r)
  {
    var i :| 0 <= i < |batch| && ValuesOf(batch, c)[i] != Null;
    NormalizeKeepsNull(Get(batch[i].cells, c));
    assert batch[i] in batch && batch[i].Valid();
    assert HasValue(batch[i]);
  }

  lemma NormalizeKeepsNull(c: Cell)
    ensures NormalizeValue(c) == Null <==> c == Null
  {
  }

  /** Every cell of a stored batch reads back as its normalized value. */
  lemma CellReadsBack(batch: seq<Record>, i: nat, c: string)
    requires i < |batch| && batch[i].Valid()
    ensures CellAt(Stored(batch), i, c) == NormalizeValue(Get(batch[i].cells, c))
  {
    hide Filled, FirstSeen;
    FirstSeenExact(batch);
    FilledExact(FirstSeen(batch), batch, c);
    assert batch[i] in batch;
    if c !in FirstSeen(batch) {
      assert c !in batch[i].cells;
    } else if AllNull(ValuesOf(batch, c)) {
      assert ValuesOf(batch, c)[i] == Null;
    }
  }

  /** What is read for a cell: an object or an array as its JSON text, anything else as it is. */
  predicate ReadsFor(read: Cell, c: Cell) {
    if c.Nested? then read == Str(c.json) else read == c
  }

  /** Equal cells, or a nested value and its text. */
  predicate ReadAlike(a: Cell, b: Cell) {
    a == b || (a.Nested? && b == Str(a.json)) || (b.Nested? && a == Str(b.json))
  }

  /** What a reader finds of a stored batch: every cell, nested values as text, and no column without a value. */
  lemma StoredReads(batch: seq<Record>)
    ensures forall i: nat, c: string | i < |batch| && batch[i].Valid() ::
      ReadsFor(CellAt(Stored(batch), i, c), Get(batch[i].cells, c))
    ensures (forall r | r in batch :: r.Valid()) ==>
      forall c: string :: c in Stored(batch).columns <==> exists r | r in batch :: Get(r.cells, c) != Null
  {
    hide Stored;
    forall i: nat, c: string | i < |batch| && batch[i].Valid()
      ensures ReadsFor(CellAt(Stored(batch), i, c), Get(batch[i].cells, c))
    {
      CellReadsBack(batch, i, c);
    }
    if forall r | r in batch :: r.Valid() {
      forall c: string
        ensures c in Stored(batch).columns <==> exists r | r in batch :: Get(r.cells, c) != Null
      {
        ColumnKept(batch, c);
      }
    }
  }

  lemma ColumnKept(batch: seq<Record>, c: string)
    requires forall r | r in batch :: r.Valid()
    ensures c in Stored(batch).columns <==> exists r | r in batch :: Get(r.cells, c) != Null
  {
    hide Filled, FirstSeen, NormalizeValue;
    FirstSeenExact(batch);
    FilledExact(FirstSeen(batch), batch, c);
    forall i | 0 <= i < |batch|
      ensures ValuesOf(batch, c)[i] == Null <==> Get(batch[i].cells, c) == Null
    {
      NormalizeKeepsNull(Get(batch[i].cells, c));
    }
    if r :| r in batch && Get(r.cells, c) != Null {
      var i :| 0 <= i < |batch| && batch[i] == r;
      assert ValuesOf(batch, c)[i] != Null;
      assert r.Valid();
    }
  }

  method RowsToArrow(rows: seq<Record>) returns (table: ColumnTable)
    ensures table == Stored(rows)
    ensures forall i: nat, c: string | i < |rows| && rows[i].Valid() ::
      ReadsFor(CellAt(table, i, c), Get(rows[i].cells, c))
    ensures (forall r | r in rows :: r.Valid()) ==>
      forall c: string :: c in table.columns <==> exists r | r in rows :: Get(r.cells, c) != Null
  {
    var columns := CollectColumns(rows);
    var kept: seq<string> := [];
    var data: map<string, seq<Cell>> := map[];
    for i := 0 to |columns|
      invariant ColumnTable(kept, data) == Filled(columns[..i], rows)
    {
      assert columns[..i + 1][..i] == columns[..i];
      var vals := ValuesOf(rows, columns[i]);
      if !AllNull(vals) {
        kept := kept + [columns[i]];
        data := data[columns[i] := vals];
      }
    }
    assert columns[..|columns|] == columns;
    StoredReads(rows);
    return ColumnTable(kept, data);
  }

  /** The rows a reader sees after appending the batches in turn, each as a total map from column names to cells. */
  function ReadAll(batches: seq<seq<Record>>): seq<string -> Cell> {
    if batches == [] then []
    else
      var t := Stored(batches[|batches| - 1]);
      ReadAll(batches[..|batches| - 1]) +
      seq(NumRows(t, |batches[|batches| - 1]|), (i: nat) => (c: string) => CellAt(t, i, c))
  }

  /** Wherever the batches are cut, the reader sees the normalized rows, all of them, in order. */
  lemma {:induction false} BatchingTransparent(batches: seq<seq<Record>>, i: nat, c: string)
    requires forall r | r in Flatten(batches) :: r.Valid() && HasValue(r)
    requires i < |Flatten(batches)|
    ensures |ReadAll(batches)| == |Flatten(batches)|
    ensures ReadAll(batches)[i](c) == NormalizeValue(Get(Flatten(batches)[i].cells, c))
    decreases |batches|
  {
    hide Stored, HasValue, CellAt;
    var init, last := batches[..|batches| - 1], batches[|batches| - 1];
    assert forall r | r in Flatten(init) :: r in Flatten(batches);
    assert forall r | r in last :: r in Flatten(batches);
    AllRowsRead(init);
    RowsKeptExactly(last);
    assert last != [] ==> last[0] in last;
    var n := |Flatten(init)|;
    if i < n {
      BatchingTransparent(init, i, c);
    } else {
      CellReadsBack(last, i - n, c);
    }
  }

  /** The same without the writer's own normalization. */
  lemma ReadsEveryCell(batches: seq<seq<Record>>, i: nat, c: string)
    requires forall r | r in Flatten(batches) :: r.Valid() && HasValue(r)
    requires i < |Flatten(batches)|
    ensures |ReadAll(batches)| == |Flatten(batches)|
    ensures ReadsFor(ReadAll(batches)[i](c), Get(Flatten(batches)[i].cells, c))
  {
    hide ReadAll, HasValue;
    BatchingTransparent(batches, i, c);
  }

  /** Two cells read alike exactly when they are equal, or one is the text of the other. */
  lemma ReadsAlikeExactly(batches: seq<seq<Record>>, i: nat, j: nat, c: string)
    requires forall r | r in Flatten(batches) :: r.Valid() && HasValue(r)
    requires i < |Flatten(batches)| && j < |Flatten(batches)|
    ensures |ReadAll(batches)| == |Flatten(batches)|
    ensures var a, b := Get(Flatten(batches)[i].cells, c), Get(Flatten(batches)[j].cells, c);
      ReadAll(batches)[i](c) == ReadAll(batches)[j](c) <==> ReadAlike(a, b)
  {
    hide ReadAll, HasValue;
    BatchingTransparent(batches, i, c);
    BatchingTransparent(batches, j, c);
  }

  lemma {:induction false} AllRowsRead(batches: seq<seq<Record>>)
    requires forall r | r in Flatten(batches) :: r.Valid() && HasValue(r)
    ensures |ReadAll(batches)| == |Flatten(batches)|
    decreases |batches|
  {
    hide Stored, HasValue, CellAt;
    if batches != [] {
      var init, last := batches[..|batches| - 1], batches[|batches| - 1];
      assert forall r | r in Flatten(init) :: r in Flatten(batches);
      assert forall r | r in last :: r in Flatten(batches);
      AllRowsRead(init);
      RowsKeptExactly(last);
      assert last != [] ==> last[0] in last;
    }
  }

  /** A feed row always has a value: its operation is never null. */
  lemma FeedRowHasValue(topic: string, payload: Payload, r: Record)
    requires FeedRow(topic, payload) == Some(r.cells) && r.Valid()
    ensures HasValue(r)
  {
    hide ParseTopic, DataColumns, OpOf, DeletedOf;
    assert "_op" in r.cells && r.cells["_op"].Str?;
  }
}
