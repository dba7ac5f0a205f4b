/** The wallet repository, MarkOrderPaid and the worker's tick, step by step. */
module ReconciliationWorker {
  import opened Prelude
  import opened Ranking
  import opened Reconciliation

  class Wallets {
    var orders: seq<Order>
    var balances: map<int, int>
    var ledger: seq<Tx>
    var issues: seq<Issue>
    var alerts: seq<Issue>   // what the worker's alert hook has been given

    constructor ()
      ensures View() == Books([], map[], [], [], [])
    {
      orders, balances, ledger, issues, alerts := [], map[], [], [], [];
    }

    ghost function View(): Books
      reads this
    {
      Books(orders, balances, ledger, issues, alerts)
    }

    /** UPDATE ... WHERE status = 'pending', then a separate SELECT. */
    method MarkPaymentOrderPaid(no: string, at: int, update: WriteFault, reread: bool) returns (order: Option<Order>, flipped: bool, ok: bool)
      modifies this`orders
      ensures var row := Find(old(orders), no);
        orders == if update.Applied() && row.Some? && old(orders)[row.value].status.Pending?
                  then SetPaid(old(orders), row.value, at) else old(orders)
      ensures ok == (update.NoFault? && !reread)
      ensures ok ==> var row := Find(old(orders), no);
        && order == (if row.Some? then Some(orders[row.value]) else None)
        && flipped == (row.Some? && old(orders)[row.value].status.Pending?)
    {
      order, flipped, ok := None, false, false;
      var row := Find(orders, no);
      if update.Applied() && row.Some? && orders[row.value].status.Pending? {
        orders := orders[row.value := orders[row.value].(status := Paid, paidAt := Some(at))];
        flipped := true;
      }
      if update.Reported() || reread { return; }
      ok := true;
      if row.Some? { order := Some(orders[row.value]); }
    }

    /** One transaction: it credits the wallet and writes the ledger entry, or does neither. */
    method Credit(account: int, amount: int, no: string, fault: WriteFault) returns (ok: bool)
      modifies this`balances, this`ledger
      ensures (View(), ok) == PostCredit(old(View()), account, amount, no, fault)
    {
      if fault.FailedBefore? || account !in balances { return false; }
      var i := 0;
      while i < |ledger|
        invariant 0 <= i <= |ledger|
        invariant forall k :: 0 <= k < i ==> ledger[k].order != no
      {
        if ledger[i].order == no { return false; } // the unique index on the reference
        i := i + 1;
      }
      balances := balances[account := balances[account] + amount];
      ledger := ledger + [Tx(account, amount, no)];
      ok := fault.NoFault?;
    }

    method MarkOrderPaid(no: string, f: Faults) returns (ok: bool)
      modifies this`orders, this`balances, this`ledger
      ensures (View(), ok) == OrderPaid(old(View()), no, f)
    {
      var order, flipped, found := MarkPaymentOrderPaid(no, f.at, f.update, f.reread);
      if !found || order.None? { return false; }
      if flipped && order.value.kind.Topup? {
        ok := Credit(order.value.account, order.value.amount, order.value.no, f.credit);
      } else {
        ok := true;
      }
    }

    method ExpireStalePendingOrders(now: int, fault: WriteFault)
      modifies this`orders
      ensures orders == if fault.Applied() then ExpireOverdue(old(orders), now) else old(orders)
    {
      if fault.FailedBefore? { return; }
      ghost var before := orders;
      var i := 0;
      while i < |orders|
        invariant 0 <= i <= |orders| == |before|
        invariant forall k :: 0 <= k < i ==> orders[k] == ExpireOverdue(before, now)[k]
        invariant forall k :: i <= k < |orders| ==> orders[k] == before[k]
      {
        if Overdue(orders[i], now) {
          orders := orders[i := orders[i].(status := Expired)];
        }
        i := i + 1;
      }
    }

    method FindStalePendingOrders(now: int) returns (stale: seq<Order>)
      ensures stale == StaleList(orders, now)
    {
      stale := [];
      var i := 0;
      while i < |orders|
        invariant 0 <= i <= |orders|
        invariant stale == Pick(orders[..i], StaleTest(now))
      {
        assert orders[..i + 1][..i] == orders[..i];
        if IsStale(orders[i], now) { stale := stale + [orders[i]]; }
        i := i + 1;
      }
      assert orders[..i] == orders;
      stale := Limit(OrderBy(stale, Older()), STALE_LIMIT);
    }

    method FindPaidTopupOrdersWithoutCredit() returns (orphans: seq<Order>)
      ensures orphans == OrphanList(View())
    {
      orphans := [];
      var i := 0;
      while i < |orders|
        invariant 0 <= i <= |orders|
        invariant orphans == Pick(orders[..i], OrphanTest(ledger))
      {
        assert orders[..i + 1][..i] == orders[..i];
        if IsOrphan(orders[i], ledger) { orphans := orphans + [orders[i]]; }
        i := i + 1;
      }
      assert orders[..i] == orders;
      orphans := Limit(OrderBy(orphans, PaidLater()), ORPHAN_LIMIT);
    }

    method CreateReconciliationIssue(what: IssueType, no: string, f: Faults)
      modifies this`issues
      ensures View() == FileIssue(old(View()), what, no, f)
    {
      var count := 0;
      if !f.countFails {
        var i := 0;
        while i < |issues|
          invariant 0 <= i <= |issues| && count >= 0
          invariant count > 0 <==> OpenIssue(issues[..i], what, no)
        {
          assert issues[..i + 1] == issues[..i] + [issues[i]];
          if issues[i] == Issue(what, no, true) { count := count + 1; }
          i := i + 1;
        }
        assert issues[..i] == issues;
      }
      if count > 0 || f.createFails { return; }
      issues := issues + [Issue(what, no, true)];
    }

    method FireAlert(what: IssueType, no: string)
      modifies this`alerts
      ensures View() == Alert(old(View()), what, no)
    {
      alerts := alerts + [Issue(what, no, true)];
    }

    method CheckPaidOrdersIntegrity(w: Weather)
      modifies this
      ensures View() == AfterCheck(old(View()), w)
    {
      if w.orphans { return; }
      var orphans := FindPaidTopupOrdersWithoutCredit();
      var i := 0;
      while i < |orphans|
        invariant 0 <= i <= |orphans|
        invariant View() == ReportAll(old(View()), orphans[..i], w.faults)
      {
        assert orphans[..i + 1][..i] == orphans[..i];
        CreateReconciliationIssue(MissingCredit, orphans[i].no, w.faults(orphans[i].no));
        FireAlert(MissingCredit, orphans[i].no);
        i := i + 1;
      }
      assert orphans[..i] == orphans;
    }

    /** The body of the verification loop. */
    method VerifyOrder(order: Order, reply: Reply, f: Faults) returns (recovered: bool)
      modifies this
      ensures (View(), recovered) == Recover(old(View()), order, reply, f)
    {
      if !Known(order.payMethod) || !reply.Answer? || !reply.paid { return false; }
      recovered := MarkOrderPaid(order.no, f);
      if !recovered {
        CreateReconciliationIssue(MissedWebhook, order.no, f);
        FireAlert(MissedWebhook, order.no);
      } else if reply.amount > 0 && reply.amount != order.amount {
        CreateReconciliationIssue(AmountMismatch, order.no, f);
      }
    }

    method VerifyStalePendingOrders(now: int, provider: string -> Reply, w: Weather) returns (recovered: nat)
      modifies this
      ensures w.stale ==> View() == old(View()) && recovered == 0
      ensures !w.stale ==> (View(), recovered) == RecoverAll(old(View()), StaleList(old(orders), now), provider, w.faults)
    {
      recovered := 0;
      if w.stale { return; }
      var stale := FindStalePendingOrders(now);
      var i := 0;
      while i < |stale|
        invariant 0 <= i <= |stale|
        invariant (View(), recovered) == RecoverAll(old(View()), stale[..i], provider, w.faults)
      {
        ghost var before, count := View(), recovered;
        var ok := VerifyOrder(stale[i], provider(stale[i].no), w.faults(stale[i].no));
        if ok { recovered := recovered + 1; }
        RecoverAllStep(old(View()), stale, i, provider, w.faults, before, count, View(), ok);
        i := i + 1;
      }
      assert stale[..i] == stale;
    }

    /** One tick: its effect is the one whose consequences TickKeepsBooks, TickVerdict and
        EveryConfirmedOrderIsSettled state. */
    method Tick(now: int, provider: string -> Reply, w: Weather)
      modifies this
      ensures View() == AfterTick(old(View()), now, provider, w)
    {
      ExpireStalePendingOrders(now, w.expire);
      CheckPaidOrdersIntegrity(w);
      var recovered := VerifyStalePendingOrders(now, provider, w);
    }
  }
}
