/** The sink as a state machine: durable stores, the consumer process, and every step between them. */
module SinkModel {
  import opened Wrappers
  import opened Text
  import opened Transform

  datatype Partition = Partition(topic: string, index: nat)

  /** A feed row together with the Kafka record it came from. */
  datatype Entry = Entry(source: Partition, offset: nat, row: Row)

  /** A Delta table: its rows, and the offset marker each partition last committed with them. */
  datatype Table = Table(rows: seq<Entry>, markers: map<Partition, nat>)

  /** Offsets by partition; the store keys its markers by `AppId`, which tells partitions apart. */
  type Marks = map<Partition, nat>

  function AppId(p: Partition): string {
    p.topic + "::" + Decimal(p.index)
  }

  /** Two partitions never share a marker name. */
  lemma AppIdInjective(p: Partition, q: Partition)
    requires AppId(p) == AppId(q)
    ensures p == q
  {
    var s, x, y := AppId(p), Decimal(p.index), Decimal(q.index);
    SuffixAt(p.topic, x, s);
    SuffixAt(q.topic, y, s);
    assert |x| == |y|;
    assert x == s[|s| - |x|..] && y == s[|s| - |y|..];
    ParseDecimalInverts(p.index);
    ParseDecimalInverts(q.index);
    assert p.topic == s[..|s| - |x| - 2] && q.topic == s[..|s| - |y| - 2];
  }

  /** The digits after the last colon are the whole partition number. */
  lemma SuffixAt(topic: string, digits: string, s: string)
    requires AllDigits(digits) && s == topic + "::" + digits
    ensures s[|s| - |digits| - 1] == ':' && forall i | |s| - |digits| <= i < |s| :: s[i] != ':'
  {
    forall i | |s| - |digits| <= i < |s|
      ensures s[i] != ':'
    {
      assert s[i] == digits[i - (|s| - |digits|)];
    }
  }

  datatype State = State(
    logs: map<Partition, seq<Payload>>,
    committed: Marks,
    tables: map<string, Table>,
    running: bool,
    position: Marks,
    stored: Marks,
    batch: map<string, seq<Entry>>,
    offsets: map<string, Marks>,
    order: seq<string>,
    count: nat)

  const EMPTY_TABLE := Table([], map[])

  function TableAt(tables: map<string, Table>, uri: string): Table {
    if uri in tables then tables[uri] else EMPTY_TABLE
  }

  function RowsAt(batch: map<string, seq<Entry>>, uri: string): seq<Entry> {
    if uri in batch then batch[uri] else []
  }

  function MarksAt(offsets: map<string, Marks>, uri: string): Marks {
    if uri in offsets then offsets[uri] else map[]
  }

  /** The first offset past the partition's marker. */
  function Next(t: Table, p: Partition): nat {
    if p in t.markers then t.markers[p] + 1 else 0
  }

  // ---- Appending a batch ----

  /** How a call to a store ends: it works, it fails without effect, or it works but the caller sees an error. */
  datatype Outcome = Done | Failed | LostReply

  function Appended(t: Table, rows: seq<Entry>, marks: Marks): Table {
    Table(t.rows + rows, t.markers + marks)
  }

  predicate AlreadyApplied(t: Table, marks: Marks) {
    exists p | p in marks :: p in t.markers && marks[p] <= t.markers[p]
  }

  /** The table after the attempt, and whether the writer returned instead of raising. */
  function AppendTo(t: Table, rows: seq<Entry>, marks: Marks, o: Outcome): (Table, bool) {
    if rows == [] then (t, true)
    else if o == Failed then (t, false)
    else if AlreadyApplied(t, marks) then (t, o == Done)
    else (Appended(t, rows, marks), o == Done)
  }

  /** Only a commit creates a table. */
  function Put(tables: map<string, Table>, uri: string, t: Table): map<string, Table> {
    if t == TableAt(tables, uri) then tables else tables[uri := t]
  }

  function First(outcomes: seq<Outcome>): Outcome {
    if outcomes == [] then Done else outcomes[0]
  }

  function Rest(outcomes: seq<Outcome>): seq<Outcome> {
    if outcomes == [] then [] else outcomes[1..]
  }

  function FlushTables(tables: map<string, Table>, batch: map<string, seq<Entry>>, offsets: map<string, Marks>,
                       order: seq<string>, outcomes: seq<Outcome>): (map<string, Table>, bool)
    decreases |order|
  {
    if order == [] then (tables, true)
    else
      var uri := order[0];
      var (t, ok) := AppendTo(TableAt(tables, uri), RowsAt(batch, uri), MarksAt(offsets, uri), First(outcomes));
      if ok then FlushTables(Put(tables, uri, t), batch, offsets, order[1..], Rest(outcomes))
      else (Put(tables, uri, t), false)
  }

  /** The outcomes one flush meets: one for each table append, then one for the Kafka commit. */
  datatype Plan = Plan(appends: seq<Outcome>, commit: Outcome)

  /** How a flush ends once the table writes are over. */
  function Ended(s: State, tables: map<string, Table>, ok: bool, commit: Outcome): (State, bool) {
    var wrote := s.(tables := tables);
    if !ok || commit == Failed then (wrote, false)
    else
      var told := wrote.(committed := wrote.committed + wrote.stored);
      if commit == LostReply then (told, false)
      else (told.(batch := map[], offsets := map[], order := [], count := 0), true)
  }

  lemma EndedShape(s: State, tables: map<string, Table>, ok: bool, commit: Outcome)
    ensures var (t, done) := Ended(s, tables, ok, commit);
      && t.logs == s.logs && t.tables == tables && t.position == s.position && t.stored == s.stored
      && t.committed == (if ok && commit != Failed then s.committed + s.stored else s.committed)
      && (if done then ok && t.batch == map[] && t.offsets == map[] && t.order == []
          else t.batch == s.batch && t.offsets == s.offsets && t.order == s.order)
  {
  }

  function Flush(s: State, plan: Plan): (State, bool) {
    if s.batch == map[] then (s, true)
    else
      var (tables, ok) := FlushTables(s.tables, s.batch, s.offsets, s.order, plan.appends);
      Ended(s, tables, ok, plan.commit)
  }

  // ---- The process ----

  /** The process is gone; only the stores remain. */
  function Halt(s: State): State {
    s.(running := false, position := map[], stored := map[], batch := map[], offsets := map[], order := [], count := 0)
  }

  /** Leaving the loop: one more flush, whatever it does, and the process ends. */
  function Shutdown(s: State, last: Plan): State {
    Halt(Flush(s, last).0)
  }

  function FlushOrStop(s: State, plan: Plan, last: Plan): State {
    var (next, ok) := Flush(s, plan);
    if ok then next else Shutdown(next, last)
  }

  /** Where a partition resumes; the marker lookup fails for the partitions in `unreadable`. */
  function Resume(s: State, p: Partition, unreadable: set<Partition>): nat {
    var t := TableFor(s, p);
    if p !in unreadable && p in t.markers then t.markers[p] + 1
    else if p in s.committed then s.committed[p]
    else 0
  }

  function TableFor(s: State, p: Partition): Table {
    match UriOf(p.topic)
    case Some(uri) => TableAt(s.tables, uri)
    case None => EMPTY_TABLE
  }

  /** Every partition is assigned and rewound; whatever is pending stays pending. */
  function Assign(s: State, unreadable: set<Partition>): State {
    s.(running := true, stored := map[], position := map p | p in s.logs :: Resume(s, p, unreadable))
  }

  /** A data record joins the batch of its table. */
  function Take(s: State, uri: string, e: Entry): State {
    var marks := MarksAt(s.offsets, uri);
    var marks' := if e.source in marks && e.offset <= marks[e.source] then marks else marks[e.source := e.offset];
    s.(batch := s.batch[uri := RowsAt(s.batch, uri) + [e]],
       offsets := s.offsets[uri := marks'],
       order := if uri in s.batch then s.order else s.order + [uri],
       count := s.count + 1)
  }

  /** The consumer moves past the record at its position. */
  function Advance(s: State, p: Partition): State
    requires p in s.position
  {
    var at := s.position[p];
    s.(position := s.position[p := at + 1], stored := s.stored[p := at + 1])
  }

  datatype Event =
    | Quiet(elapsed: bool, plan: Plan, last: Plan)
    | Notice
    | Fatal(last: Plan)
    | Deliver(p: Partition, elapsed: bool, plan: Plan, last: Plan)
    | Interrupt(last: Plan)
    | Kill
    | Rebalance(unreadable: set<Partition>)
    | Produce(p: Partition, payload: Payload)
    | Reset(p: Partition, offset: nat)

  predicate HasRecord(s: State, p: Partition) {
    p in s.position && p in s.logs && s.position[p] < |s.logs[p]|
  }

  function DeliverStep(s: State, p: Partition, elapsed: bool, plan: Plan, last: Plan, limit: nat): State
    requires HasRecord(s, p)
  {
    var at := s.position[p];
    var payload := s.logs[p][at];
    var moved := Advance(s, p);
    if payload == Garbled then Shutdown(moved, last)
    else
      match FeedRow(p.topic, payload)
      case None => moved
      case Some(row) =>
        var taken := Take(moved, UriOf(p.topic).value, Entry(p, at, row));
        if taken.count >= limit || elapsed then FlushOrStop(taken, plan, last) else taken
  }

  /** One turn of the consumer loop, or one thing the outside world does. */
  function Step(s: State, ev: Event, limit: nat): State {
    match ev
    case Quiet(elapsed, plan, last) => if s.running && elapsed then FlushOrStop(s, plan, last) else s
    case Notice => s
    case Fatal(last) => if s.running then Shutdown(s, last) else s
    case Deliver(p, elapsed, plan, last) =>
      if s.running && HasRecord(s, p) then DeliverStep(s, p, elapsed, plan, last, limit) else s
    case Interrupt(last) => if s.running then Shutdown(s, last) else s
    case Kill => Halt(s)
    case Rebalance(unreadable) => Assign(s, unreadable)
    case Produce(p, payload) =>
      s.(logs := s.logs[p := (if p in s.logs then s.logs[p] else []) + [payload]])
    case Reset(p, offset) =>
      if p in s.logs && offset <= |s.logs[p]| then s.(committed := s.committed[p := offset]) else s
  }

  function Run(s: State, evs: seq<Event>, limit: nat): State
    decreases |evs|
  {
    if evs == [] then s else Run(Step(s, evs[0], limit), evs[1..], limit)
  }
}
