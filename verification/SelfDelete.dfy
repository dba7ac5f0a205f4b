/** RequestSelfDelete as it runs, with other callers acting on the table between its
    lookup, its insert and its second lookup. */
module SelfDelete {
  import opened Prelude
  import opened DeleteRequests
  import opened PurgeWorker
  import opened Subscriptions

  /** One statement of some other caller. */
  datatype Other = OtherCreate(account: int, creator: nat) | OtherUpdate(id: nat, from: DeleteRequests.Status, to: DeleteRequests.Status)

  /** What the lookups answer and which store calls fail. */
  datatype World = World(
    found: bool, deleted: bool, lookupFails: bool,
    checkFails: bool,
    guarded: bool, subs: seq<Sub>, listFails: bool,
    insertFails: bool, rereadFails: bool,
    beforeInsert: seq<Other>, beforeReread: seq<Other>)

  predicate Blocks(s: Sub) { s.status.Active? || s.status.Grace? }

  predicate Admitted(account: int, w: World) {
    && account > 0 && w.found && !w.deleted && !w.lookupFails && !w.checkFails
    && (w.guarded ==> !w.listFails && forall i :: 0 <= i < |w.subs| ==> !Blocks(w.subs[i]))
  }

  /** The table, and its step counter, after the others' statements. */
  function Acted(rows: seq<Row>, now: nat, step: nat, ops: seq<Other>): (seq<Row>, nat) {
    if ops == [] then (rows, step)
    else
      var (r, n) := Acted(rows, now, step, ops[..|ops| - 1]);
      match ops[|ops| - 1]
      case OtherCreate(account, creator) =>
        if FindPending(r, account).Some? then (r, n)
        else (r + [Row(account, now, DeleteRequests.Pending, [DeleteRequests.Pending], creator, n, None, [], 0, 0)], n)
      case OtherUpdate(id, from, to) => (if id < |r| then r[id := Moved(r[id], from, to, n)] else r, n + 1)
  }

  class AccountDeleteRequestService {
    const table: DeleteRequestTable

    constructor (table: DeleteRequestTable)
      ensures this.table == table
    {
      this.table := table;
    }

    method OthersAct(ops: seq<Other>)
      modifies table`rows, table`step
      ensures (table.rows, table.step) == Acted(old(table.rows), table.now, old(table.step), ops)
    {
      for k := 0 to |ops|
        invariant (table.rows, table.step) == Acted(old(table.rows), table.now, old(table.step), ops[..k])
      {
        assert ops[..k + 1][..k] == ops[..k];
        match ops[k]
        case OtherCreate(account, creator) => var id := table.Create(account, creator);
        case OtherUpdate(id, from, to) =>
          ghost var rows, step := table.rows, table.step;
          table.UpdateStatus(id, from, to);
          assert table.rows == if id < |rows| then rows[id := Moved(rows[id], from, to, step)] else rows;
      }
      assert ops[..|ops|] == ops;
    }

    method SubscriptionsBlock(subs: seq<Sub>) returns (blocked: bool)
      ensures blocked <==> exists i :: 0 <= i < |subs| && Blocks(subs[i])
    {
      for i := 0 to |subs|
        invariant forall k :: 0 <= k < i ==> !Blocks(subs[k])
      {
        if Blocks(subs[i]) { return true; }
      }
      blocked := false;
    }

    /** The call gets as far as its insert. */
    ghost predicate Inserts(account: int, w: World)
      reads table
    {
      Admitted(account, w) && FindPending(table.rows, account).None? && !w.insertFails
    }

    /** The table when the insert runs, and when a caller that lost the race looks again. */
    ghost function AtInsert(w: World): (seq<Row>, nat)
      reads table
    {
      Acted(table.rows, table.now, table.step, w.beforeInsert)
    }

    ghost function AtReread(w: World): (seq<Row>, nat)
      reads table
    {
      Acted(AtInsert(w).0, table.now, AtInsert(w).1, w.beforeReread)
    }

    /** A row pending at the first lookup is returned as it is, whatever subscriptions there
        are. Otherwise an admitted caller gets a row of its own exactly if none is pending when
        its insert runs; if one is, it gets the row pending when it looks again, or, if there is
        none or the lookup fails, the news that there was one. */
    method RequestSelfDelete(account: int, creator: nat, w: World) returns (r: Result)
      modifies table`rows, table`step
      ensures r.Created? <==> old(Inserts(account, w)) && FindPending(old(AtInsert(w)).0, account).None?
      ensures r.Created? ==>
        && r.id == |old(AtInsert(w)).0|
        && table.rows == old(AtInsert(w)).0 + [Row(account, table.now, DeleteRequests.Pending, [DeleteRequests.Pending],
                                                   creator, old(AtInsert(w)).1, None, [], 0, 0)]
        && table.rows[r.id].CoolingOffUntil() == table.now + COOLING_OFF
      ensures r.AlreadyPending? <==>
        old(Inserts(account, w)) && FindPending(old(AtInsert(w)).0, account).Some?
        && (w.rereadFails || FindPending(old(AtReread(w)).0, account).None?)
      ensures r.Existing? ==> FindPending(table.rows, account) == Some(r.id)
      ensures r.AlreadyPending? || (r.Existing? && FindPending(old(table.rows), account).None?) ==> table.rows == old(AtReread(w)).0
      ensures r.Rejected? <==>
        !(account > 0 && w.found && !w.deleted && !w.lookupFails && !w.checkFails)
        || (FindPending(old(table.rows), account).None? && (!Admitted(account, w) || w.insertFails))
      ensures FindPending(old(table.rows), account).Some? && !r.Rejected? ==>
        r == Existing(FindPending(old(table.rows), account).value) && table.rows == old(table.rows)
    {
      if account <= 0 { return Rejected; }
      if w.lookupFails || !w.found || w.deleted { return Rejected; }
      if w.checkFails { return Rejected; }
      var existing := table.GetPending(account);
      if existing.Some? { return Existing(existing.value); }
      if w.guarded {
        if w.listFails { return Rejected; }
        var blocked := SubscriptionsBlock(w.subs);
        if blocked { return Rejected; }
      }
      OthersAct(w.beforeInsert);
      if w.insertFails { return Rejected; }
      var id := table.Create(account, creator);
      if id.None? {
        OthersAct(w.beforeReread);
        if w.rereadFails { return AlreadyPending; }
        var winner := table.GetPending(account);
        if winner.Some? { return Existing(winner.value); }
        return AlreadyPending;
      }
      r := Created(id.value);
    }
  }
}
