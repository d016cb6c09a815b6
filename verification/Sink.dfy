/** The sink process in its own form: mutable batches, a flush loop and a consumer loop over mutable stores. */
module Sink {
  import opened Wrappers
  import opened Transform
  import opened SinkModel
  import opened SinkSafety

  /** Kafka as the sink sees it. */
  class Broker {
    var logs: map<Partition, seq<Payload>>
    var committed: Marks

    constructor (logs: map<Partition, seq<Payload>>)
      ensures this.logs == logs && committed == map[]
    {
      this.logs := logs;
      committed := map[];
    }
  }

  /** The Delta tables in the object store. */
  class Lake {
    var tables: map<string, Table>

    constructor ()
      ensures tables == map[]
    {
      tables := map[];
    }

    /** One atomic append; a batch whose marker is already applied is refused and reported as done. */
    method Append(uri: string, rows: seq<Entry>, marks: Marks, outcome: Outcome) returns (ok: bool)
      modifies this
      ensures tables == Put(old(tables), uri, AppendTo(TableAt(old(tables), uri), rows, marks, outcome).0)
      ensures ok == AppendTo(TableAt(old(tables), uri), rows, marks, outcome).1
    {
      if rows == [] {
        return true;
      }
      if outcome == Failed {
        return false;
      }
      var t := TableAt(tables, uri);
      if !(exists p | p in marks :: p in t.markers && marks[p] <= t.markers[p]) {
        tables := tables[uri := Table(t.rows + rows, t.markers + marks)];
      }
      return outcome == Done;
    }
  }

  /** The record the loop unpacks is the feed row and table the model speaks of. */
  lemma RecordParts(topic: string, payload: Payload)
    ensures var record := ToRecord(topic, if payload.Fields? then Some(payload.value) else None);
      if record.Ok? && record.value.Some? then
        var r := record.value.value;
        FeedRow(topic, payload) == Some(r.row) && UriOf(topic) == Some(StorageLocation(r.project, r.table))
      else FeedRow(topic, payload) == None
  {
    hide ParseTopic, DataColumns, OpOf, DeletedOf;
  }

  /** What a poll can return, as opposed to what the outside world does. */
  predicate IsPoll(ev: Event) {
    ev.Quiet? || ev.Notice? || ev.Fatal? || ev.Deliver? || ev.Interrupt?
  }

  lemma {:induction false} PollsAdmissible(s: State, polls: seq<Event>, limit: nat)
    requires forall ev | ev in polls :: IsPoll(ev)
    ensures AdmissibleRun(s, polls, limit)
    decreases |polls|
  {
    hide Step;
    if polls != [] {
      assert IsPoll(polls[0]);
      PollsAdmissible(Step(s, polls[0], limit), polls[1..], limit);
    }
  }

  class Process {
    const broker: Broker
    const lake: Lake
    const batchMaxRecords: nat

    var running: bool
    var position: Marks
    var stored: Marks
    var batch: map<string, seq<Entry>>
    var offsets: map<string, Marks>
    var order: seq<string>
    var count: nat

    ghost function Now(): State
      reads this, broker, lake
    {
      State(broker.logs, broker.committed, lake.tables, running, position, stored, batch, offsets, order, count)
    }

    constructor (broker: Broker, lake: Lake, batchMaxRecords: nat)
      ensures this.broker == broker && this.lake == lake && this.batchMaxRecords == batchMaxRecords
      ensures Now() == Halt(Now())
    {
      this.broker, this.lake, this.batchMaxRecords := broker, lake, batchMaxRecords;
      running, position, stored := false, map[], map[];
      batch, offsets, order, count := map[], map[], [], 0;
    }

    /** Rewinds every assigned partition to just past its Delta marker, where there is one. */
    method OnAssign(partitions: seq<Partition>, unreadable: set<Partition>)
      requires forall p :: p in partitions <==> p in broker.logs
      modifies this
      ensures Now() == Assign(old(Now()), unreadable)
    {
      hide ParseTopic, StorageLocation;
      var starts: Marks := map[];
      for i := 0 to |partitions|
        invariant forall p :: p in starts <==> p in partitions[..i]
        invariant forall p | p in starts :: starts[p] == Resume(old(Now()), p, unreadable)
        invariant Now() == old(Now())
      {
        var p := partitions[i];
        var start := if p in broker.committed then broker.committed[p] else 0;
        if p !in unreadable {
          var parsed := ParseTopic(p.topic);
          if parsed.Some? {
            var uri := StorageLocation(parsed.value.0, parsed.value.1);
            if uri in lake.tables && p in lake.tables[uri].markers {
              start := lake.tables[uri].markers[p] + 1;
            }
          }
        }
        starts := starts[p := start];
      }
      running, stored, position := true, map[], starts;
    }

    /** Writes every pending table, then commits to Kafka, then forgets the batch; stops at the first failure. */
    method FlushBatch(plan: Plan) returns (ok: bool)
      modifies this, broker, lake
      ensures (Now(), ok) == Flush(old(Now()), plan)
    {
      if batch == map[] {
        return true;
      }
      var outcomes := plan.appends;
      ghost var before := lake.tables;
      for i := 0 to |order|
        invariant Now() == old(Now()).(tables := lake.tables)
        invariant FlushTables(before, batch, offsets, order, plan.appends) ==
                  FlushTables(lake.tables, batch, offsets, order[i..], outcomes)
      {
        var written := lake.Append(order[i], RowsAt(batch, order[i]), MarksAt(offsets, order[i]), First(outcomes));
        assert order[i..][1..] == order[i + 1..];
        outcomes := Rest(outcomes);
        if !written {
          return false;
        }
      }
      if plan.commit == Failed {
        return false;
      }
      broker.committed := broker.committed + stored;
      if plan.commit == LostReply {
        return false;
      }
      batch, offsets, order, count := map[], map[], [], 0;
      return true;
    }

    /** The `finally` clause: one more flush, then the process is gone. */
    method Stop(last: Plan)
      modifies this, broker, lake
      ensures Now() == Shutdown(old(Now()), last)
    {
      var _ := FlushBatch(last);
      running, position, stored := false, map[], map[];
      batch, offsets, order, count := map[], map[], [], 0;
    }

    method FlushOrStopNow(plan: Plan, last: Plan)
      modifies this, broker, lake
      ensures Now() == FlushOrStop(old(Now()), plan, last)
    {
      var ok := FlushBatch(plan);
      if !ok {
        Stop(last);
      }
    }

    /** Adds a row to the batch of its table and raises the marker of its partition. */
    method Batch(uri: string, e: Entry)
      modifies this
      ensures Now() == Take(old(Now()), uri, e)
    {
      if uri !in batch {
        batch, order := batch[uri := []], order + [uri];
      }
      batch := batch[uri := batch[uri] + [e]];
      assert batch == old(batch)[uri := RowsAt(old(batch), uri) + [e]];
      var marks := MarksAt(offsets, uri);
      if e.source !in marks || e.offset > marks[e.source] {
        marks := marks[e.source := e.offset];
      }
      offsets := offsets[uri := marks];
      count := count + 1;
    }

    /** One message: skip it, die on it, or batch its row and flush when the batch is full or old. */
    method Receive(p: Partition, elapsed: bool, plan: Plan, last: Plan)
      requires HasRecord(Now(), p)
      modifies this, broker, lake
      ensures Now() == DeliverStep(old(Now()), p, elapsed, plan, last, batchMaxRecords)
    {
      hide ToRecord, FeedRow, UriOf, Flush, StorageLocation, Take, Shutdown, FlushOrStop;
      var at := position[p];
      var payload := broker.logs[p][at];
      position, stored := position[p := at + 1], stored[p := at + 1];
      assert Now() == Advance(old(Now()), p);
      if payload == Garbled {
        Stop(last);
        return;
      }
      RecordParts(p.topic, payload);
      var record := ToRecord(p.topic, if payload.Fields? then Some(payload.value) else None);
      if record.Err? || record.value == None {
        return;
      }
      var r := record.value.value;
      Batch(StorageLocation(r.project, r.table), Entry(p, at, r.row));
      if count >= batchMaxRecords || elapsed {
        FlushOrStopNow(plan, last);
      }
    }

    /** The consumer loop, over what each poll returns, until the process ends or the polls run out. */
    method RunLoop(polls: seq<Event>)
      requires forall ev | ev in polls :: IsPoll(ev)
      modifies this, broker, lake
      ensures Now() == Run(old(Now()), polls, batchMaxRecords)
      ensures Inv(old(Now())) ==> Inv(Now())
    {
      hide Inv;
      for i := 0 to |polls|
        invariant Run(old(Now()), polls, batchMaxRecords) == Run(Now(), polls[i..], batchMaxRecords)
      {
        assert polls[i..][1..] == polls[i + 1..] && polls[i] in polls;
        if running {
          match polls[i]
          case Quiet(elapsed, plan, last) =>
            if elapsed {
              FlushOrStopNow(plan, last);
            }
          case Notice =>
          case Fatal(last) => Stop(last);
          case Deliver(p, elapsed, plan, last) =>
            if p in position && p in broker.logs && position[p] < |broker.logs[p]| {
              Receive(p, elapsed, plan, last);
            }
          case Interrupt(last) => Stop(last);
        }
      }
      PollsAdmissible(old(Now()), polls, batchMaxRecords);
      if Inv(old(Now())) {
        RunKeeps(old(Now()), polls, batchMaxRecords);
      }
    }
  }
}
