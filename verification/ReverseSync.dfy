/** Conflict-governed reverse sync: one transaction per call over the table and the applied-version ledger. */
module ReverseSync {
  import opened Wrappers
  import opened Transform
  import opened Postgres
  import opened Conflict

  datatype Config = Config(schema: Schema, versionCol: Option<string>, policy: Policy, truth: string)

  /** The data table, and the highest lake version applied per key; a null ledger version is no version. */
  datatype Db = Db(rows: Rows, ledger: map<Cell, int>)

  function VersionOf(row: Row, cfg: Config): Option<int> {
    match cfg.versionCol
    case None => None
    case Some(c) => (match Get(row, c) case Number(n) => Some(n) case _ => None)
  }

  /** What a call knows about one key: its row and its ledger version. */
  datatype KeyState = KeyState(row: Option<Row>, last: Option<int>)

  function KeyOf(db: Db, k: Cell): KeyState {
    KeyState(Lookup(db.rows, k), if k in db.ledger then Some(db.ledger[k]) else None)
  }

  function Decide(ks: KeyState, r: Row, cfg: Config): Result<Decision, Failure>
    requires cfg.schema.pk in r
  {
    var k := r[cfg.schema.pk];
    var pg := if ks.row == None then None
              else Some(SideRow(Side.Postgres, k, ks.row.value, VersionOf(ks.row.value, cfg)));
    DecideReverseApply(SideRow(Lakehouse, k, r, VersionOf(r, cfg)), pg, cfg.policy, ks.last, cfg.truth, None)
  }

  predicate Writes(d: Decision) { d.action == Apply || d.action == ApplyMerge }

  /** The table columns that an applied decision writes. */
  function Values(d: Decision, r: Row, cfg: Config): Row {
    Project(if d.values.Some? && d.values.value != map[] then d.values.value else r, cfg.schema)
  }

  lemma AppliedValues(ks: KeyState, r: Row, cfg: Config)
    requires cfg.schema.pk in r && Decide(ks, r, cfg).Ok? && Writes(Decide(ks, r, cfg).value)
    ensures Values(Decide(ks, r, cfg).value, r, cfg) == Project(r, cfg.schema)
  {
  }

  function SyncRow(db: Db, r: Row, cfg: Config): Result<(Db, Action), Failure>
    requires cfg.schema.Valid()
  {
    if cfg.schema.pk !in r then Err(Invalid)
    else
      var k := r[cfg.schema.pk];
      match Decide(KeyOf(db, k), r, cfg)
      case Err(f) => Err(f)
      case Ok(d) =>
        if Writes(d) then
          AppliedValues(KeyOf(db, k), r, cfg);
          var rows := Upsert(db.rows, Values(d, r, cfg), cfg.schema);
          var ledger := match VersionOf(r, cfg) case Some(v) => db.ledger[k := v] case None => db.ledger - {k};
          Ok((Db(rows, ledger), d.action))
        else Ok((db, d.action))
  }

  /** The rows in order inside one transaction; the first failure abandons all of them. */
  function SyncBatch(db: Db, rows: seq<Row>, cfg: Config): Result<(Db, seq<Action>), Failure>
    requires cfg.schema.Valid()
  {
    if rows == [] then Ok((db, []))
    else
      match SyncBatch(db, rows[..|rows| - 1], cfg)
      case Err(f) => Err(f)
      case Ok((mid, actions)) =>
        match SyncRow(mid, rows[|rows| - 1], cfg)
        case Err(f) => Err(f)
        case Ok((after, action)) => Ok((after, actions + [action]))
  }

  /** The stores after a call: all of it, or nothing. */
  function Call(db: Db, rows: seq<Row>, cfg: Config): Db
    requires cfg.schema.Valid()
  {
    match SyncBatch(db, rows, cfg)
    case Ok((after, _)) => after
    case Err(_) => db
  }

  /** A call as the API takes it, with the policy's name: the stores after it, and the actions or the failure. */
  function CallByName(db: Db, rows: seq<Row>, schema: Schema, versionCol: Option<string>, policy: string, truth: string)
    : (Db, Result<seq<Action>, Failure>)
    requires schema.Valid()
  {
    match ParsePolicy(policy)
    case None => (db, Err(Invalid))
    case Some(p) =>
      match SyncBatch(db, rows, Config(schema, versionCol, p, truth))
      case Ok((after, actions)) => (after, Ok(actions))
      case Err(f) => (db, Err(f))
  }

  function Calls(db: Db, batches: seq<seq<Row>>, cfg: Config): Db
    requires cfg.schema.Valid()
  {
    if batches == [] then db else Call(Calls(db, batches[..|batches| - 1], cfg), batches[|batches| - 1], cfg)
  }

  class SyncStore {
    var rows: Rows
    var ledger: map<Cell, int>

    constructor ()
      ensures rows == map[] && ledger == map[]
    {
      rows, ledger := map[], map[];
    }

    /** Decides and applies each row on working copies, and commits them together. */
    method Sync(incoming: seq<Row>, schema: Schema, versionCol: Option<string>, policy: string, truth: string)
      returns (results: Result<seq<Action>, Failure>)
      requires schema.Valid()
      modifies this
      ensures results.Err? ==> rows == old(rows) && ledger == old(ledger)
      ensures (Db(rows, ledger), results) ==
        CallByName(Db(old(rows), old(ledger)), incoming, schema, versionCol, policy, truth)
    {
      var parsed := ParsePolicy(policy);
      if parsed == None {
        return Err(Invalid);
      }
      var cfg := Config(schema, versionCol, parsed.value, truth);
      var work := Db(rows, ledger);
      var actions: seq<Action> := [];
      for i := 0 to |incoming|
        invariant SyncBatch(Db(rows, ledger), incoming[..i], cfg) == Ok((work, actions))
        invariant rows == old(rows) && ledger == old(ledger)
      {
        assert incoming[..i + 1][..i] == incoming[..i];
        var step := SyncRow(work, incoming[i], cfg);
        if step.Err? {
          BatchFails(Db(rows, ledger), incoming, i + 1, cfg);
          return Err(step.error);
        }
        work, actions := step.value.0, actions + [step.value.1];
      }
      assert incoming[..|incoming|] == incoming;
      rows, ledger := work.rows, work.ledger;
      return Ok(actions);
    }
  }

  /** A batch whose front part fails, fails the same way. */
  lemma {:induction false} BatchFails(db: Db, rows: seq<Row>, n: nat, cfg: Config)
    requires cfg.schema.Valid() && n <= |rows| && SyncBatch(db, rows[..n], cfg).Err?
    ensures SyncBatch(db, rows, cfg) == SyncBatch(db, rows[..n], cfg)
    decreases |rows|
  {
    if n == |rows| {
      assert rows[..n] == rows;
    } else {
      assert rows[..|rows| - 1][..n] == rows[..n];
      BatchFails(db, rows[..|rows| - 1], n, cfg);
    }
  }
}
