/** The watcher and the apply service in their own form: a polling cycle, a dictionary collapse, a transaction. */
module Watcher {
  import opened Wrappers
  import opened Transform
  import opened Postgres
  import opened Inbox
  import opened InboxMirror

  class Database {
    const schema: Schema
    var rows: Rows

    constructor (schema: Schema)
      ensures this.schema == schema && rows == map[]
    {
      this.schema := schema;
      rows := map[];
    }

    /** All changes in one transaction, or none when one of them lacks the key. */
    method ReverseApply(changes: seq<Change>) returns (ok: bool)
      requires schema.Valid()
      modifies this
      ensures ok == Keyed(changes, schema.pk)
      ensures rows == if ok then ApplyAll(old(rows), changes, schema) else old(rows)
    {
      var work := rows;
      for i := 0 to |changes|
        invariant Keyed(changes[..i], schema.pk)
        invariant work == ApplyAll(old(rows), changes[..i], schema) && rows == old(rows)
      {
        var c := changes[i];
        if schema.pk !in c.row {
          assert c in changes;
          return false;
        }
        assert changes[..i + 1][..i] == changes[..i];
        if c.deletes {
          work := work - {c.row[schema.pk]};
        } else {
          var vals := map column | column in c.row && column in schema.columns :: c.row[column];
          work := Upsert(work, vals, schema);
        }
      }
      assert changes[..|changes|] == changes;
      rows := work;
      return true;
    }
  }

  lemma NetSnoc(cs: seq<Change>, c: Change, pk: string)
    requires Keyed(cs, pk) && pk in c.row
    ensures Keyed(cs + [c], pk) && NetOf(cs + [c], pk) == NetOf(cs, pk).Add(c, pk)
  {
    assert (cs + [c])[..|cs + [c]| - 1] == cs;
  }

  lemma ChangesSnoc(rows: seq<CdfRow>, r: CdfRow, pk: string)
    ensures Changes(rows + [r], pk) == Changes(rows, pk) + ToChange(r, pk)
  {
    assert (rows + [r])[..|rows + [r]| - 1] == rows;
  }

  /** The dictionary after reading `rows` in order: later changes of a key overwrite earlier ones. */
  method CollectNet(rows: seq<CdfRow>, pk: string) returns (order: seq<Cell>, net: map<Cell, Change>)
    ensures Net(order, net) == NetOf(Changes(rows, pk), pk)
  {
    hide Changes, NetOf, ToChange;
    order, net := [], map[];
    assert Changes(rows[..0], pk) == [] && NetOf([], pk) == Net([], map[]) by { NothingRead(rows, pk); }
    for i := 0 to |rows|
      invariant Net(order, net) == NetOf(Changes(rows[..i], pk), pk)
    {
      var r := rows[i];
      ghost var cs := Changes(rows[..i], pk);
      assert rows[..i + 1] == rows[..i] + [r];
      ChangesSnoc(rows[..i], r, pk);
      SkippedOrKept(r, pk);
      if r.changeType == "update_preimage" || pk !in r.row {
        assert cs + [] == cs;
      } else {
        var k := r.row[pk];
        NetSnoc(cs, Change(r.changeType == "delete", r.row), pk);
        if k !in net {
          order := order + [k];
        }
        net := net[k := Change(r.changeType == "delete", r.row)];
      }
    }
    assert rows[..|rows|] == rows;
  }

  lemma NothingRead(rows: seq<CdfRow>, pk: string)
    ensures Changes(rows[..0], pk) == [] && NetOf([], pk) == Net([], map[])
  {
  }

  lemma SkippedOrKept(r: CdfRow, pk: string)
    ensures ToChange(r, pk) ==
      if r.changeType == "update_preimage" || pk !in r.row then []
      else [Change(r.changeType == "delete", r.row)]
  {
  }

  /** The values of the dictionary, in the order of its keys. */
  method NetValues(order: seq<Cell>, net: map<Cell, Change>) returns (changes: seq<Change>)
    requires Net(order, net).Valid()
    ensures changes == Net(order, net).Values()
  {
    ghost var n := Net(order, net);
    changes := [];
    for i := 0 to |order|
      invariant changes == n.Values()[..i]
    {
      assert order[i] in n.order;
      changes := changes + [net[order[i]]];
    }
  }

  /** The net change of every key, keys in the order first seen. */
  method Collapse(cdf: seq<CdfRow>, pk: string) returns (changes: seq<Change>)
    ensures changes == NetOfRead(cdf, pk)
  {
    hide Changes, SortByVersion, NetOf;
    var order, net := CollectNet(SortByVersion(cdf), pk);
    changes := NetValues(order, net);
  }

  class InboxTable {
    var log: Log

    constructor ()
      ensures log == []
    {
      log := [];
    }
  }

  class ReverseWatcher {
    const inbox: InboxTable
    const db: Database
    var saved: int

    constructor (inbox: InboxTable, db: Database)
      ensures this.inbox == inbox && this.db == db && saved == -1
    {
      this.inbox, this.db, saved := inbox, db, -1;
    }

    ghost function Now(): Mirror
      reads this, inbox, db
    {
      Mirror(inbox.log, db.rows, saved, Idle)
    }

    /** One cycle; `cdf` is what the feed read returns, `reply` and `saves` are how the two requests end. */
    method ProcessInbox(cdf: seq<CdfRow>, reply: Reply, saves: bool)
      requires db.schema.Valid() && saved >= -1
      requires saved < |inbox.log| - 1 ==> IsCdf(cdf, inbox.log, saved + 1, |inbox.log|)
      modifies this, db
      ensures Now() == Step(Step(Step(Step(old(Now()), Open, db.schema), Load(|inbox.log|, cdf), db.schema),
                                 Post(reply), db.schema), Save(saves), db.schema)
    {
      hide NetOfRead, ApplyAll, IsCdf;
      var current := |inbox.log| - 1;
      if current <= saved {
        return;
      }
      var changes := Collapse(cdf, db.schema.pk);
      if changes != [] {
        if reply == Refused {
          return;
        }
        var ok := db.ReverseApply(changes);
        if !ok || reply == Unheard {
          return;
        }
      }
      if saves {
        saved := current;
      }
    }
  }
}
