/** The table and one purge worker as they run: the statements of the repository and
    the loops of tick and processRow. */
module PurgeWorker {
  import opened Prelude
  import opened DeleteRequests

  predicate Distinct(ids: seq<nat>) { forall i, j :: 0 <= i < j < |ids| ==> ids[i] != ids[j] }

  class DeleteRequestTable {
    var rows: seq<Row>
    var now: nat
    var step: nat

    constructor (now: nat)
      ensures rows == [] && this.now == now && step == 0
    {
      rows, this.now, step := [], now, 0;
    }

    /** INSERT, rejected by the partial UNIQUE index while the account has a pending row. */
    method Create(account: int, creator: nat) returns (id: Option<nat>)
      modifies this`rows
      ensures id.None? <==> FindPending(old(rows), account).Some?
      ensures id.None? ==> rows == old(rows)
      ensures id.Some? ==> id.value == |old(rows)|
      ensures id.Some? ==> rows == old(rows) + [Row(account, now, Pending, [Pending], creator, step, None, [], 0, 0)]
    {
      var clash := GetPending(account);
      if clash.Some? { return None; }
      rows := rows + [Row(account, now, Pending, [Pending], creator, step, None, [], 0, 0)];
      return Some(|rows| - 1);
    }

    method GetPending(account: int) returns (id: Option<nat>)
      ensures id == FindPending(rows, account)
    {
      var i := |rows|;
      assert rows[..i] == rows;
      while i > 0
        invariant 0 <= i <= |rows|
        invariant FindPending(rows, account) == FindPending(rows[..i], account)
      {
        if rows[i - 1].status == Pending && rows[i - 1].account == account { return Some(i - 1); }
        assert rows[..i][..i - 1] == rows[..i - 1];
        i := i - 1;
      }
      return None;
    }

    /** `UPDATE ... SET status = to WHERE id = ? AND status = from`; zero rows is no error. */
    method UpdateStatus(id: nat, from: Status, to: Status)
      modifies this`rows, this`step
      ensures step == old(step) + 1 && |rows| == |old(rows)|
      ensures forall i :: 0 <= i < |rows| ==>
                rows[i] == if i == id then Moved(old(rows)[i], from, to, old(step)) else old(rows)[i]
    {
      if id < |rows| && rows[id].status == from {
        rows := rows[id := Moved(rows[id], from, to, step)];
      }
      step := step + 1;
    }

    /** The eligible row not in `taken` whose cooling-off ended first. */
    method OldestEligible(taken: seq<nat>) returns (best: Option<nat>)
      ensures best.None? ==> forall i :: 0 <= i < |rows| && Eligible(rows[i], now) ==> i in taken
      ensures best.Some? ==> best.value < |rows| && Eligible(rows[best.value], now) && best.value !in taken
      ensures best.Some? ==>
                forall i :: 0 <= i < |rows| && Eligible(rows[i], now) && i !in taken ==>
                     rows[best.value].CoolingOffUntil() <= rows[i].CoolingOffUntil()
    {
      best := None;
      for k := 0 to |rows|
        invariant best.None? ==> forall i :: 0 <= i < k && Eligible(rows[i], now) ==> i in taken
        invariant best.Some? ==> best.value < k && Eligible(rows[best.value], now) && best.value !in taken
        invariant best.Some? ==>
                    forall i :: 0 <= i < k && Eligible(rows[i], now) && i !in taken ==>
                         rows[best.value].CoolingOffUntil() <= rows[i].CoolingOffUntil()
      {
        if Eligible(rows[k], now) && k !in taken
           && (best.None? || rows[k].CoolingOffUntil() < rows[best.value].CoolingOffUntil()) {
          best := Some(k);
        }
      }
    }

    /** The claiming UPDATE: the first `limit` eligible rows by cooling-off go to
        processing; nothing else changes. */
    method ClaimExpiredPending(limit: int) returns (ids: seq<nat>)
      modifies this`rows, this`step
      ensures Distinct(ids) && |ids| <= (if limit < 0 then 0 else limit)
      ensures forall i :: i in ids ==> i < |old(rows)| && Eligible(old(rows)[i], now)
      ensures |ids| < limit ==> forall i :: 0 <= i < |old(rows)| && Eligible(old(rows)[i], now) ==> i in ids
      ensures forall i, e :: i in ids && 0 <= e < |old(rows)| && Eligible(old(rows)[e], now) && e !in ids ==>
                old(rows)[i].CoolingOffUntil() <= old(rows)[e].CoolingOffUntil()
      ensures |rows| == |old(rows)| && step == old(step) + 1
      ensures forall i :: 0 <= i < |rows| ==>
                rows[i] == if i in ids
                           then Moved(old(rows)[i], Pending, Processing, old(step)).(claims := old(rows)[i].claims + [now])
                           else old(rows)[i]
    {
      ids := [];
      var more := true;
      while more && |ids| < limit
        invariant rows == old(rows) && step == old(step)
        invariant Distinct(ids) && |ids| <= (if limit < 0 then 0 else limit)
        invariant forall i :: i in ids ==> i < |rows| && Eligible(rows[i], now)
        invariant !more ==> forall i :: 0 <= i < |rows| && Eligible(rows[i], now) ==> i in ids
        invariant forall i, e :: i in ids && 0 <= e < |rows| && Eligible(rows[e], now) && e !in ids ==>
                    rows[i].CoolingOffUntil() <= rows[e].CoolingOffUntil()
        decreases limit - |ids|, more
      {
        var next := OldestEligible(ids);
        if next.None? {
          more := false;
        } else {
          ids := ids + [next.value];
        }
      }
      var claimed := ids;
      rows := seq(|rows|, i requires 0 <= i < |rows| reads this =>
                if i in claimed
                then Moved(rows[i], Pending, Processing, step).(claims := rows[i].claims + [now])
                else rows[i]);
      step := step + 1;
    }
  }

  datatype Event = Cascaded(id: nat) | Emitted(id: nat)

  /** How the outside world answers the worker, row by row. */
  datatype Outcomes = Outcomes(cascadeOk: nat -> bool, mark: nat -> WriteFault)

  /** processRow, as the sequence of external effects it causes. */
  function RowEvents(id: nat, o: Outcomes): seq<Event> {
    if o.cascadeOk(id) && !o.mark(id).Reported() then [Cascaded(id), Emitted(id)] else [Cascaded(id)]
  }

  function BatchEvents(ids: seq<nat>, o: Outcomes): seq<Event> {
    if ids == [] then [] else BatchEvents(ids[..|ids| - 1], o) + RowEvents(ids[|ids| - 1], o)
  }

  lemma OneRowMore(trace: seq<Event>, ids: seq<nat>, k: nat, o: Outcomes)
    requires k < |ids|
    ensures trace + BatchEvents(ids[..k], o) + RowEvents(ids[k], o) == trace + BatchEvents(ids[..k + 1], o)
  {
    assert ids[..k + 1][..k] == ids[..k];
  }

  /** The status a claimed row is left with. */
  function Outcome(id: nat, o: Outcomes): Status {
    if !o.mark(id).Applied() then Processing else if o.cascadeOk(id) then Completed else Expired
  }

  /** Each claimed row's cascade runs exactly once, no other row's does, and the event
      goes out exactly for rows whose cascade and bookkeeping both succeeded. */
  lemma {:induction false} BatchEventsMean(ids: seq<nat>, o: Outcomes, id: nat)
    requires Distinct(ids)
    ensures multiset(BatchEvents(ids, o))[Cascaded(id)] == if id in ids then 1 else 0
    ensures multiset(BatchEvents(ids, o))[Emitted(id)] ==
              if id in ids && o.cascadeOk(id) && !o.mark(id).Reported() then 1 else 0
  {
    if ids != [] {
      var front, last := ids[..|ids| - 1], ids[|ids| - 1];
      assert ids == front + [last];
      BatchEventsMean(front, o, id);
      assert id in front ==> id != last;
    }
  }

  class PurgeWorker {
    const table: DeleteRequestTable
    const outcomes: Outcomes
    var trace: seq<Event>

    constructor (table: DeleteRequestTable, outcomes: Outcomes)
      ensures this.table == table && this.outcomes == outcomes && trace == []
    {
      this.table, this.outcomes, trace := table, outcomes, [];
    }

    method ProcessRow(id: nat)
      requires id < |table.rows| && table.rows[id].status == Processing
      modifies this`trace, table`rows, table`step
      ensures trace == old(trace) + RowEvents(id, outcomes)
      ensures |table.rows| == |old(table.rows)| && table.rows[id].status == Outcome(id, outcomes)
      ensures outcomes.mark(id).Applied() ==> table.rows[id].status == if outcomes.cascadeOk(id) then Completed else Expired
      ensures !outcomes.mark(id).Applied() ==> table.rows[id].status == Processing
      ensures forall i :: 0 <= i < |table.rows| && i != id ==> table.rows[i] == old(table.rows)[i]
    {
      trace := trace + [Cascaded(id)];
      if outcomes.cascadeOk(id) {
        if outcomes.mark(id).Applied() { table.UpdateStatus(id, Processing, Completed); }
        if outcomes.mark(id).Reported() { return; }
        trace := trace + [Emitted(id)];
        return;
      }
      if outcomes.mark(id).Applied() { table.UpdateStatus(id, Processing, Expired); }
    }

    /** Every row is processed on its own: a failure does not stop the batch. */
    method ProcessBatch(ids: seq<nat>)
      requires Distinct(ids)
      requires forall j :: 0 <= j < |ids| ==> ids[j] < |table.rows| && table.rows[ids[j]].status == Processing
      modifies this`trace, table`rows, table`step
      ensures trace == old(trace) + BatchEvents(ids, outcomes) && |table.rows| == |old(table.rows)|
      ensures forall j :: 0 <= j < |ids| ==> table.rows[ids[j]].status == Outcome(ids[j], outcomes)
      ensures forall i :: 0 <= i < |table.rows| && i !in ids ==> table.rows[i] == old(table.rows)[i]
    {
      for k := 0 to |ids|
        invariant |table.rows| == |old(table.rows)|
        invariant trace == old(trace) + BatchEvents(ids[..k], outcomes)
        invariant forall j :: 0 <= j < k ==> table.rows[ids[j]].status == Outcome(ids[j], outcomes)
        invariant forall j :: k <= j < |ids| ==> table.rows[ids[j]].status == Processing
        invariant forall i :: 0 <= i < |table.rows| && i !in ids ==> table.rows[i] == old(table.rows)[i]
      {
        OneRowMore(old(trace), ids, k, outcomes);
        ProcessRow(ids[k]);
      }
      assert ids[..|ids|] == ids;
    }

    /** One pass: claim a batch and process every row of it. */
    method Tick(batch: int, claimFails: bool) returns (ids: seq<nat>)
      modifies this`trace, table`rows, table`step
      ensures claimFails ==> ids == [] && trace == old(trace) && table.rows == old(table.rows)
      ensures Distinct(ids) && trace == old(trace) + BatchEvents(ids, outcomes)
      ensures forall i :: i in ids ==> i < |old(table.rows)| && Eligible(old(table.rows)[i], table.now)
      ensures !claimFails && |ids| < batch ==>
                forall i :: 0 <= i < |old(table.rows)| && Eligible(old(table.rows)[i], table.now) ==> i in ids
      ensures |table.rows| == |old(table.rows)|
      ensures forall i :: 0 <= i < |table.rows| ==>
                if i in ids then table.rows[i].status == Outcome(i, outcomes) else table.rows[i] == old(table.rows)[i]
      // completed and announced, or expired and silent, by how its cascade ended
      ensures forall i :: i in ids && !outcomes.mark(i).Reported() ==>
                if outcomes.cascadeOk(i) then table.rows[i].status == Completed && Emitted(i) in trace[|old(trace)|..]
                else table.rows[i].status == Expired && Emitted(i) !in trace[|old(trace)|..]
    {
      if claimFails { return []; }
      ids := table.ClaimExpiredPending(batch);
      forall j | 0 <= j < |ids| ensures ids[j] < |table.rows| && table.rows[ids[j]].status == Processing {
        assert ids[j] in ids;
      }
      ProcessBatch(ids);
      forall i | i in ids
        ensures Emitted(i) in BatchEvents(ids, outcomes) <==> outcomes.cascadeOk(i) && !outcomes.mark(i).Reported()
      {
        BatchEventsMean(ids, outcomes, i);
        assert Emitted(i) in BatchEvents(ids, outcomes) <==> Emitted(i) in multiset(BatchEvents(ids, outcomes));
      }
      assert trace[|old(trace)|..] == BatchEvents(ids, outcomes);
    }
  }
}
