/** A Postgres table as the reverse path uses it: rows by primary key, with partial-column upserts. */
module Postgres {
  import opened Wrappers
  import opened Transform

  datatype Schema = Schema(columns: set<string>, pk: string, defaults: Row) {
    predicate Valid() {
      pk in columns && defaults.Keys == columns
    }
  }

  type Rows = map<Cell, Row>

  ghost predicate WellFormed(t: Rows, schema: Schema) {
    forall k | k in t :: t[k].Keys == schema.columns && schema.pk in t[k] && t[k][schema.pk] == k
  }

  function Lookup(t: Rows, k: Cell): Option<Row> {
    if k in t then Some(t[k]) else None
  }

  /** A row as stored under `k`. */
  ghost predicate Stored(row: Option<Row>, schema: Schema, k: Cell) {
    row.Some? ==> row.value.Keys == schema.columns && schema.pk in row.value && row.value[schema.pk] == k
  }

  lemma LookupStored(t: Rows, schema: Schema, k: Cell)
    requires WellFormed(t, schema)
    ensures Stored(Lookup(t, k), schema, k)
  {
  }

  /** Only columns the table has. */
  function Project(row: Row, schema: Schema): Row {
    map c | c in row && c in schema.columns :: row[c]
  }

  /** The row an upsert leaves: given columns overwritten, others kept, or defaulted when the row is new. */
  function Merged(existing: Option<Row>, vals: Row, schema: Schema): Row {
    match existing
    case Some(row) => row + (vals - {schema.pk})
    case None => schema.defaults + vals
  }

  /** `INSERT .. ON CONFLICT (pk) DO UPDATE SET ..` */
  function Upsert(t: Rows, vals: Row, schema: Schema): Rows
    requires schema.pk in vals
  {
    t[vals[schema.pk] := Merged(Lookup(t, vals[schema.pk]), vals, schema)]
  }

  lemma UpsertKeepsWellFormed(t: Rows, vals: Row, schema: Schema)
    requires schema.Valid() && WellFormed(t, schema) && schema.pk in vals && vals.Keys <= schema.columns
    ensures WellFormed(Upsert(t, vals, schema), schema)
  {
  }
}
