/** Payment orders, wallet credits and the reconciliation worker, run by one thread.
    The concurrent behaviour of a single order is in module TopupOrder. */
module Reconciliation {
  import opened Prelude
  import opened Ranking

  datatype Status = Pending | Paid | Expired
  datatype Kind = Topup | Subscription
  datatype Order = Order(no: string, account: int, amount: int, kind: Kind, payMethod: string,
                         status: Status, created: int, expires: Option<int>, paidAt: Option<int>)

  /** A wallet transaction with reference (topup, payment_order, order). */
  datatype Tx = Tx(account: int, amount: int, order: string)

  datatype IssueType = MissingCredit | MissedWebhook | AmountMismatch
  datatype Issue = Issue(what: IssueType, order: string, open: bool)

  datatype Books = Books(orders: seq<Order>, balances: map<int, int>, ledger: seq<Tx>, issues: seq<Issue>, alerts: seq<Issue>)

  /** What the store does to the calls made for one order; `at` is the time of its update. */
  datatype Faults = Faults(at: int, update: WriteFault, reread: bool, credit: WriteFault, countFails: bool, createFails: bool)

  /** A payment provider's answer about one order. */
  datatype Reply = QueryFailed | CannotQuery | Answer(paid: bool, amount: int)

  const ORDER_MAX_AGE := 1800
  const STALE_PENDING_MIN_AGE := 600
  const STALE_LIMIT := 50
  const ORPHAN_LIMIT := 100

  predicate Known(payMethod: string) {
    payMethod in {"alipay", "alipay_qr", "alipay_wap", "wechat_native", "wechat_h5", "wechat_jsapi",
                  "epay_alipay", "epay_wxpay", "epay_wechat", "stripe", "creem"}
  }

  function Find(orders: seq<Order>, no: string): (r: Option<nat>)
    ensures r.None? ==> forall i :: 0 <= i < |orders| ==> orders[i].no != no
    ensures r.Some? ==> r.value < |orders| && orders[r.value].no == no
  {
    if orders == [] then None
    else if orders[|orders| - 1].no == no then Some(|orders| - 1)
    else Find(orders[..|orders| - 1], no)
  }

  ghost predicate DistinctNumbers(orders: seq<Order>) {
    forall i, j :: 0 <= i < j < |orders| ==> orders[i].no != orders[j].no
  }

  predicate Credited(ledger: seq<Tx>, no: string) {
    exists k :: 0 <= k < |ledger| && ledger[k].order == no
  }

  // ---- What each call does to the books ----

  function PostCredit(b: Books, account: int, amount: int, no: string, fault: WriteFault): (Books, bool) {
    if fault.FailedBefore? || account !in b.balances || Credited(b.ledger, no) then (b, false)
    else (b.(balances := b.balances[account := b.balances[account] + amount],
             ledger := b.ledger + [Tx(account, amount, no)]), fault.NoFault?)
  }

  function SetPaid(orders: seq<Order>, i: nat, at: int): seq<Order>
    requires i < |orders|
  {
    orders[i := orders[i].(status := Paid, paidAt := Some(at))]
  }

  function OrderPaid(b: Books, no: string, f: Faults): (Books, bool) {
    var row := Find(b.orders, no);
    if f.update.FailedBefore? || row.None? then (b, false)
    else
      var o := b.orders[row.value];
      var b1 := if o.status.Pending? then b.(orders := SetPaid(b.orders, row.value, f.at)) else b;
      if f.update.ReplyLost? || f.reread then (b1, false)
      else if o.status.Pending? && o.kind.Topup? then PostCredit(b1, o.account, o.amount, no, f.credit)
      else (b1, true)
  }

  predicate OpenIssue(issues: seq<Issue>, what: IssueType, no: string) {
    exists k :: 0 <= k < |issues| && issues[k] == Issue(what, no, true)
  }

  /** A failed count reads as zero, so only a count that succeeds suppresses a duplicate. */
  function FileIssue(b: Books, what: IssueType, no: string, f: Faults): Books {
    if (!f.countFails && OpenIssue(b.issues, what, no)) || f.createFails then b
    else b.(issues := b.issues + [Issue(what, no, true)])
  }

  function Alert(b: Books, what: IssueType, no: string): Books {
    b.(alerts := b.alerts + [Issue(what, no, true)])
  }

  predicate Confirmed(o: Order, reply: Reply) { Known(o.payMethod) && reply.Answer? && reply.paid }

  /** What is filed after the recovery call: a failure is an issue and an alert, an
      amount mismatch an issue only. */
  function Aftermath(b: Books, o: Order, ok: bool, reply: Reply, f: Faults): Books
    requires reply.Answer?
  {
    if !ok then Alert(FileIssue(b, MissedWebhook, o.no, f), MissedWebhook, o.no)
    else if reply.amount > 0 && reply.amount != o.amount then FileIssue(b, AmountMismatch, o.no, f)
    else b
  }

  function Recover(b: Books, o: Order, reply: Reply, f: Faults): (Books, bool) {
    if !Confirmed(o, reply) then (b, false)
    else
      var (b1, ok) := OrderPaid(b, o.no, f);
      (Aftermath(b1, o, ok, reply, f), ok)
  }

  function RecoverAll(b: Books, list: seq<Order>, provider: string -> Reply, faults: string -> Faults): (Books, nat) {
    if list == [] then (b, 0)
    else
      var (b1, n) := RecoverAll(b, list[..|list| - 1], provider, faults);
      var o := list[|list| - 1];
      var (b2, ok) := Recover(b1, o, provider(o.no), faults(o.no));
      (b2, if ok then n + 1 else n)
  }

  lemma RecoverAllStep(b: Books, list: seq<Order>, i: nat, provider: string -> Reply, faults: string -> Faults,
                       b1: Books, n: nat, b2: Books, ok: bool)
    requires i < |list| && (b1, n) == RecoverAll(b, list[..i], provider, faults)
    requires (b2, ok) == Recover(b1, list[i], provider(list[i].no), faults(list[i].no))
    ensures (b2, if ok then n + 1 else n) == RecoverAll(b, list[..i + 1], provider, faults)
  {
    assert list[..i + 1][..i] == list[..i];
  }

  predicate Overdue(o: Order, now: int) {
    o.status.Pending? && (if o.expires.Some? then o.expires.value < now else o.created < now - ORDER_MAX_AGE)
  }

  function ExpireOverdue(orders: seq<Order>, now: int): (r: seq<Order>)
    ensures |r| == |orders|
    ensures forall i :: 0 <= i < |r| ==>
      r[i] == if Overdue(orders[i], now) then orders[i].(status := Expired) else orders[i]
  {
    seq(|orders|, i requires 0 <= i < |orders| =>
      if Overdue(orders[i], now) then orders[i].(status := Expired) else orders[i])
  }

  predicate IsStale(o: Order, now: int) { o.status.Pending? && o.created < now - STALE_PENDING_MIN_AGE }

  predicate IsOrphan(o: Order, ledger: seq<Tx>) { o.status.Paid? && o.kind.Topup? && !Credited(ledger, o.no) }

  function StaleTest(now: int): Order -> bool { o => IsStale(o, now) }

  function OrphanTest(ledger: seq<Tx>): Order -> bool { o => IsOrphan(o, ledger) }

  /** The rows a predicate picks, in table order. */
  function Pick(orders: seq<Order>, p: Order -> bool): (r: seq<Order>)
    ensures forall o :: o in r <==> o in orders && p(o)
  {
    if orders == [] then []
    else
      var rest := Pick(orders[..|orders| - 1], p);
      if p(orders[|orders| - 1]) then rest + [orders[|orders| - 1]] else rest
  }

  /** ORDER BY created_at ASC */
  function Older(): (Order, Order) -> bool { (a: Order, b: Order) => a.created < b.created }

  /** ORDER BY paid_at DESC, which puts a missing time first */
  function PaidLater(): (Order, Order) -> bool {
    (a: Order, b: Order) => b.paidAt.Some? && (a.paidAt.None? || a.paidAt.value > b.paidAt.value)
  }

  function ReportAll(b: Books, orphans: seq<Order>, faults: string -> Faults): Books {
    if orphans == [] then b
    else
      var o := orphans[|orphans| - 1];
      Alert(FileIssue(ReportAll(b, orphans[..|orphans| - 1], faults), MissingCredit, o.no, faults(o.no)), MissingCredit, o.no)
  }

  // ---- Invariants of the books ----

  function Sum(ledger: seq<Tx>, account: int): int {
    if ledger == [] then 0
    else
      var t := ledger[|ledger| - 1];
      Sum(ledger[..|ledger| - 1], account) + (if t.account == account then t.amount else 0)
  }

  /** Money a wallet holds beyond what the order credits on the ledger explain. */
  function Unexplained(b: Books, account: int): int
    requires account in b.balances
  {
    b.balances[account] - Sum(b.ledger, account)
  }

  /** Every entry is the one credit of a paid top-up order, for its account and amount. */
  ghost predicate Honest(b: Books) {
    && DistinctNumbers(b.orders)
    && (forall j, k :: 0 <= j < k < |b.ledger| ==> b.ledger[j].order != b.ledger[k].order)
    && (forall k :: 0 <= k < |b.ledger| ==> HasOrder(b.orders, b.ledger[k]))
  }

  ghost predicate HasOrder(orders: seq<Order>, t: Tx) {
    exists i :: 0 <= i < |orders| && Explains(orders[i], t)
  }

  ghost predicate Explains(o: Order, t: Tx) {
    o.status.Paid? && o.kind.Topup? && o.no == t.order && o.account == t.account && o.amount == t.amount
  }

  /** What any of the calls may do: pending orders move, credits are added for orders paid now. */
  ghost predicate Follows(b: Books, b': Books) {
    && |b'.orders| == |b.orders|
    && (forall i :: 0 <= i < |b.orders| ==> b'.orders[i] == b.orders[i].(status := b'.orders[i].status, paidAt := b'.orders[i].paidAt))
    && (forall i :: 0 <= i < |b.orders| && !b.orders[i].status.Pending? ==> b'.orders[i] == b.orders[i])
    && b.ledger <= b'.ledger && b.alerts <= b'.alerts && b.issues <= b'.issues
    && b'.balances.Keys == b.balances.Keys
    && (forall a :: a in b.balances ==> Unexplained(b', a) == Unexplained(b, a))
  }

  lemma FollowsIsTransitive(b: Books, b': Books, b'': Books)
    requires Follows(b, b') && Follows(b', b'')
    ensures Follows(b, b'')
  {
  }

  lemma SumOfAppend(ledger: seq<Tx>, t: Tx, account: int)
    ensures Sum(ledger + [t], account) == Sum(ledger, account) + (if t.account == account then t.amount else 0)
  {
    assert (ledger + [t])[..|ledger|] == ledger;
  }

  lemma PostCreditKeepsBooks(b: Books, i: nat, fault: WriteFault)
    requires Honest(b) && i < |b.orders| && b.orders[i].status.Paid? && b.orders[i].kind.Topup?
    ensures var o := b.orders[i];
      var b' := PostCredit(b, o.account, o.amount, o.no, fault).0;
      Honest(b') && Follows(b, b') && b'.orders == b.orders
  {
    var o := b.orders[i];
    var b' := PostCredit(b, o.account, o.amount, o.no, fault).0;
    forall a | a in b.balances ensures Unexplained(b', a) == Unexplained(b, a) {
      SumOfAppend(b.ledger, Tx(o.account, o.amount, o.no), a);
    }
    forall k | 0 <= k < |b'.ledger| ensures HasOrder(b'.orders, b'.ledger[k]) {
      if k < |b.ledger| {
        assert HasOrder(b.orders, b.ledger[k]);
      } else {
        assert Explains(b'.orders[i], b'.ledger[k]);
      }
    }
  }

  lemma SetPaidKeepsBooks(b: Books, i: nat, at: int)
    requires Honest(b) && i < |b.orders| && b.orders[i].status.Pending?
    ensures var b' := b.(orders := SetPaid(b.orders, i, at)); Honest(b') && Follows(b, b')
  {
    var b' := b.(orders := SetPaid(b.orders, i, at));
    forall k | 0 <= k < |b'.ledger| ensures HasOrder(b'.orders, b'.ledger[k]) {
      var j :| 0 <= j < |b.orders| && Explains(b.orders[j], b.ledger[k]);
      assert Explains(b'.orders[j], b'.ledger[k]);
    }
  }

  lemma OrderPaidKeepsBooks(b: Books, no: string, f: Faults)
    requires Honest(b)
    ensures Honest(OrderPaid(b, no, f).0) && Follows(b, OrderPaid(b, no, f).0)
  {
    var row := Find(b.orders, no);
    if row.Some? && b.orders[row.value].status.Pending? {
      var b1 := b.(orders := SetPaid(b.orders, row.value, f.at));
      SetPaidKeepsBooks(b, row.value, f.at);
      if b.orders[row.value].kind.Topup? {
        PostCreditKeepsBooks(b1, row.value, f.credit);
        FollowsIsTransitive(b, b1, PostCredit(b1, b1.orders[row.value].account, b1.orders[row.value].amount, no, f.credit).0);
      }
    }
  }

  predicate CallsSucceed(o: Order, f: Faults, accounts: set<int>) {
    f.update.NoFault? && !f.reread && (o.kind.Topup? ==> f.credit.NoFault? && o.account in accounts)
  }

  /** A successful call leaves the order settled: not pending, and credited if this call
      paid a top-up; a paid order means the call that paid it or an earlier one. */
  lemma SuccessSettles(b: Books, no: string, f: Faults, i: nat)
    requires Honest(b) && i < |b.orders| && b.orders[i].no == no
    ensures b.orders[i].status.Pending? ==>
      (OrderPaid(b, no, f).1 <==> CallsSucceed(b.orders[i], f, b.balances.Keys))
    ensures var (b', ok) := OrderPaid(b, no, f);
      && (ok && b.orders[i].status.Pending? ==> b'.orders[i].status.Paid?)
      && (ok && b.orders[i].status.Pending? && b.orders[i].kind.Topup? ==> Credited(b'.ledger, no))
  {
    var row := Find(b.orders, no);
    assert row.value == i;
    if b.orders[i].status.Pending? {
      forall k | 0 <= k < |b.ledger| ensures b.ledger[k].order != no {
        var j :| 0 <= j < |b.orders| && Explains(b.orders[j], b.ledger[k]);
      }
      var b' := OrderPaid(b, no, f).0;
      if OrderPaid(b, no, f).1 && b.orders[i].kind.Topup? {
        assert b'.ledger[|b.ledger|].order == no;
      }
    }
  }

  lemma AftermathOnlyFiles(b: Books, o: Order, ok: bool, reply: Reply, f: Faults)
    requires reply.Answer?
    ensures var b' := Aftermath(b, o, ok, reply, f);
      b' == b.(issues := b'.issues, alerts := b'.alerts) && b.issues <= b'.issues && b.alerts <= b'.alerts
  {
  }

  lemma FilingKeepsBooks(b: Books, b1: Books, b2: Books)
    requires Honest(b1) && Follows(b, b1)
    requires b2 == b1.(issues := b2.issues, alerts := b2.alerts) && b1.issues <= b2.issues && b1.alerts <= b2.alerts
    ensures Honest(b2) && Follows(b, b2)
  {
    forall a | a in b.balances ensures Unexplained(b2, a) == Unexplained(b, a) {
      assert Unexplained(b1, a) == Unexplained(b, a);
    }
  }

  lemma RecoverKeepsBooks(b: Books, o: Order, reply: Reply, f: Faults)
    requires Honest(b)
    ensures Honest(Recover(b, o, reply, f).0) && Follows(b, Recover(b, o, reply, f).0)
  {
    if Confirmed(o, reply) {
      var (b1, ok) := OrderPaid(b, o.no, f);
      OrderPaidKeepsBooks(b, o.no, f);
      AftermathOnlyFiles(b1, o, ok, reply, f);
      FilingKeepsBooks(b, b1, Aftermath(b1, o, ok, reply, f));
    }
  }

  /** Money is conserved and every order keeps its identity through a whole pass. */
  lemma {:induction false} RecoverAllKeepsBooks(b: Books, list: seq<Order>, provider: string -> Reply, faults: string -> Faults)
    requires Honest(b)
    ensures Honest(RecoverAll(b, list, provider, faults).0) && Follows(b, RecoverAll(b, list, provider, faults).0)
  {
    if list != [] {
      RecoverAllKeepsBooks(b, list[..|list| - 1], provider, faults);
      var b1 := RecoverAll(b, list[..|list| - 1], provider, faults).0;
      var o := list[|list| - 1];
      RecoverKeepsBooks(b1, o, provider(o.no), faults(o.no));
      FollowsIsTransitive(b, b1, Recover(b1, o, provider(o.no), faults(o.no)).0);
    }
  }

  // ---- What a pass does to each order ----

  predicate CreditLands(o: Order, f: Faults, accounts: set<int>) {
    o.kind.Topup? && f.update.NoFault? && !f.reread && f.credit.Applied() && o.account in accounts
  }

  ghost predicate Alerted(b: Books, b': Books, no: string)
    requires |b.alerts| <= |b'.alerts|
  {
    Issue(MissedWebhook, no, true) in b'.alerts[|b.alerts|..]
  }

  ghost predicate Settled(b: Books, b': Books, i: nat, f: Faults)
    requires Follows(b, b') && i < |b.orders|
  {
    var o := b.orders[i];
    && b'.orders[i].status == (if f.update.Applied() then Paid else Pending)
    && (Credited(b'.ledger, o.no) <==> CreditLands(o, f, b.balances.Keys))
    && (Alerted(b, b', o.no) <==> !CallsSucceed(o, f, b.balances.Keys))
  }

  ghost predicate Untouched(b: Books, b': Books, i: nat)
    requires Follows(b, b') && i < |b.orders|
  {
    && b'.orders[i] == b.orders[i]
    && (Credited(b'.ledger, b.orders[i].no) <==> Credited(b.ledger, b.orders[i].no))
    && !Alerted(b, b', b.orders[i].no)
  }

  /** The orders a pass works on: distinct pending rows. */
  ghost predicate Worklist(b: Books, list: seq<Order>) {
    && (forall o :: o in list ==> o in b.orders && o.status.Pending?)
    && (forall j, k :: 0 <= j < k < |list| ==> list[j].no != list[k].no)
  }

  lemma CreditedAfterAppend(ledger: seq<Tx>, t: Tx, no: string)
    ensures Credited(ledger + [t], no) <==> Credited(ledger, no) || t.order == no
  {
    if Credited(ledger, no) {
      var k :| 0 <= k < |ledger| && ledger[k].order == no;
      assert (ledger + [t])[k].order == no;
    }
    assert (ledger + [t])[|ledger|] == t;
  }

  lemma PendingIsUncredited(b: Books, i: nat)
    requires Honest(b) && i < |b.orders| && !b.orders[i].status.Paid?
    ensures !Credited(b.ledger, b.orders[i].no)
  {
    forall k | 0 <= k < |b.ledger| ensures b.ledger[k].order != b.orders[i].no {
      var j :| 0 <= j < |b.orders| && Explains(b.orders[j], b.ledger[k]);
    }
  }

  lemma OrderPaidOnItsRow(b: Books, i: nat, f: Faults)
    requires Honest(b) && i < |b.orders| && b.orders[i].status.Pending?
    ensures var o := b.orders[i];
      var b' := OrderPaid(b, o.no, f).0;
      && b'.orders == (if f.update.Applied() then SetPaid(b.orders, i, f.at) else b.orders)
      && (Credited(b'.ledger, o.no) <==> CreditLands(o, f, b.balances.Keys))
      && b'.alerts == b.alerts
  {
    var o := b.orders[i];
    assert Find(b.orders, o.no).value == i;
    PendingIsUncredited(b, i);
    CreditedAfterAppend(b.ledger, Tx(o.account, o.amount, o.no), o.no);
  }

  lemma OrderPaidElsewhere(b: Books, i: nat, f: Faults, no: string)
    requires Honest(b) && i < |b.orders| && b.orders[i].status.Pending? && no != b.orders[i].no
    ensures Credited(OrderPaid(b, b.orders[i].no, f).0.ledger, no) <==> Credited(b.ledger, no)
  {
    var o := b.orders[i];
    assert Find(b.orders, o.no).value == i;
    CreditedAfterAppend(b.ledger, Tx(o.account, o.amount, o.no), no);
  }

  lemma AftermathAlerts(b: Books, o: Order, ok: bool, reply: Reply, f: Faults)
    requires reply.Answer?
    ensures Aftermath(b, o, ok, reply, f).alerts == if ok then b.alerts else b.alerts + [Issue(MissedWebhook, o.no, true)]
  {
  }

  lemma RecoverOutcome(b: Books, i: nat, reply: Reply, f: Faults)
    requires Honest(b) && i < |b.orders| && b.orders[i].status.Pending?
    ensures var b' := Recover(b, b.orders[i], reply, f).0;
      Follows(b, b') && if Confirmed(b.orders[i], reply) then Settled(b, b', i, f) else b' == b
  {
    RecoverKeepsBooks(b, b.orders[i], reply, f);
    if Confirmed(b.orders[i], reply) {
      var (b1, ok) := OrderPaid(b, b.orders[i].no, f);
      OrderPaidOnItsRow(b, i, f);
      SuccessSettles(b, b.orders[i].no, f, i);
      AftermathOnlyFiles(b1, b.orders[i], ok, reply, f);
      AftermathAlerts(b1, b.orders[i], ok, reply, f);
    }
  }

  lemma RecoverElsewhere(b: Books, i: nat, j: nat, reply: Reply, f: Faults)
    requires Honest(b) && i < |b.orders| && j < |b.orders| && i != j && b.orders[j].status.Pending?
    ensures var b' := Recover(b, b.orders[j], reply, f).0; Follows(b, b') && Untouched(b, b', i)
  {
    assert b.orders[i].no != b.orders[j].no;
    RecoverKeepsBooks(b, b.orders[j], reply, f);
    if Confirmed(b.orders[j], reply) {
      var (b1, ok) := OrderPaid(b, b.orders[j].no, f);
      OrderPaidOnItsRow(b, j, f);
      OrderPaidElsewhere(b, j, f, b.orders[i].no);
      AftermathOnlyFiles(b1, b.orders[j], ok, reply, f);
      AftermathAlerts(b1, b.orders[j], ok, reply, f);
    }
  }

  lemma WorklistPrefix(b: Books, list: seq<Order>)
    requires Worklist(b, list) && list != []
    ensures Worklist(b, list[..|list| - 1]) && list[|list| - 1] !in list[..|list| - 1]
  {
  }

  lemma TwoHops(b: Books, b1: Books, b2: Books, i: nat)
    requires Follows(b, b1) && Follows(b1, b2) && Follows(b, b2) && i < |b.orders|
    ensures Alerted(b, b2, b.orders[i].no) <==> Alerted(b, b1, b.orders[i].no) || Alerted(b1, b2, b.orders[i].no)
  {
    assert b2.alerts[|b.alerts|..] == b1.alerts[|b.alerts|..] + b2.alerts[|b1.alerts|..];
  }

  ghost predicate Outcome(b: Books, b': Books, i: nat, worked: bool, f: Faults)
    requires Follows(b, b') && i < |b.orders|
  {
    if worked then Settled(b, b', i, f) else Untouched(b, b', i)
  }

  lemma UntouchedThenWorked(b: Books, b1: Books, b2: Books, i: nat, worked: bool, f: Faults)
    requires Follows(b, b1) && Follows(b1, b2) && Follows(b, b2) && i < |b.orders| && b.orders[i].status.Pending?
    requires Untouched(b, b1, i) && if worked then Settled(b1, b2, i, f) else b2 == b1
    ensures Outcome(b, b2, i, worked, f)
  {
    TwoHops(b, b1, b2, i);
  }

  lemma WorkedThenUntouched(b: Books, b1: Books, b2: Books, i: nat, worked: bool, f: Faults)
    requires Follows(b, b1) && Follows(b1, b2) && Follows(b, b2) && i < |b.orders|
    requires Outcome(b, b1, i, worked, f) && Untouched(b1, b2, i)
    ensures Outcome(b, b2, i, worked, f)
  {
    TwoHops(b, b1, b2, i);
  }

  /** The verification pass, order by order: an order on the list that its provider
      confirms is paid unless the store refused, is credited exactly when every call up to
      the credit went through, and raises an alert exactly when some call reported an
      error. Every other order is left alone. */
  lemma {:induction false} EveryConfirmedOrderIsSettled(b: Books, list: seq<Order>, provider: string -> Reply, faults: string -> Faults, i: nat)
    requires Honest(b) && Worklist(b, list) && i < |b.orders|
    ensures var b' := RecoverAll(b, list, provider, faults).0;
      var o := b.orders[i];
      Follows(b, b') && if o in list && Confirmed(o, provider(o.no)) then Settled(b, b', i, faults(o.no)) else Untouched(b, b', i)
  {
    RecoverAllKeepsBooks(b, list, provider, faults);
    if list != [] {
      var rest, o := list[..|list| - 1], list[|list| - 1];
      WorklistPrefix(b, list);
      RecoverAllKeepsBooks(b, rest, provider, faults);
      var b1 := RecoverAll(b, rest, provider, faults).0;
      var j :| 0 <= j < |b.orders| && b.orders[j] == o;
      EveryConfirmedOrderIsSettled(b, rest, provider, faults, j);
      EveryConfirmedOrderIsSettled(b, rest, provider, faults, i);
      assert b1.orders[j] == o;
      var b2 := Recover(b1, o, provider(o.no), faults(o.no)).0;
      RecoverKeepsBooks(b1, o, provider(o.no), faults(o.no));
      assert list == rest + [o];
      if i == j {
        RecoverOutcome(b1, i, provider(o.no), faults(o.no));
        UntouchedThenWorked(b, b1, b2, i, Confirmed(o, provider(o.no)), faults(o.no));
      } else {
        assert b.orders[i].no != o.no;
        RecoverElsewhere(b1, i, j, provider(o.no), faults(o.no));
        var x := b.orders[i];
        WorkedThenUntouched(b, b1, b2, i, x in rest && Confirmed(x, provider(x.no)), faults(x.no));
      }
    }
  }

  // ---- The integrity check ----

  lemma {:induction false} ReportOnlyFiles(b: Books, orphans: seq<Order>, faults: string -> Faults)
    ensures var b' := ReportAll(b, orphans, faults);
      b' == b.(issues := b'.issues, alerts := b'.alerts) && b.issues <= b'.issues
    ensures ReportAll(b, orphans, faults).alerts == b.alerts + seq(|orphans|, k requires 0 <= k < |orphans| => Issue(MissingCredit, orphans[k].no, true))
  {
    if orphans != [] {
      ReportOnlyFiles(b, orphans[..|orphans| - 1], faults);
    }
  }

  lemma OpenIssueStays(issues: seq<Issue>, more: seq<Issue>, what: IssueType, no: string)
    requires issues <= more && OpenIssue(issues, what, no)
    ensures OpenIssue(more, what, no)
  {
    var k :| 0 <= k < |issues| && issues[k] == Issue(what, no, true);
    assert more[k] == issues[k];
  }

  lemma FilingOpensAnIssue(b: Books, what: IssueType, no: string, f: Faults)
    requires !f.createFails
    ensures OpenIssue(FileIssue(b, what, no, f).issues, what, no)
  {
    if f.countFails || !OpenIssue(b.issues, what, no) {
      assert (b.issues + [Issue(what, no, true)])[|b.issues|] == Issue(what, no, true);
    }
  }

  lemma FiledIff(b: Books, what: IssueType, no: string, f: Faults, what': IssueType, no': string)
    ensures OpenIssue(FileIssue(b, what, no, f).issues, what', no') <==>
      OpenIssue(b.issues, what', no') || (what' == what && no' == no && !f.createFails)
  {
    var b' := FileIssue(b, what, no, f);
    if OpenIssue(b.issues, what', no') {
      OpenIssueStays(b.issues, b'.issues, what', no');
    } else if what' == what && no' == no && !f.createFails {
      FilingOpensAnIssue(b, what, no, f);
    }
  }

  /** What a confirmed order deserves: a failed recovery is a missed webhook to resolve, a
      recovered one whose positive provider amount differs is a mismatch. */
  predicate Deserves(what: IssueType, o: Order, reply: Reply, f: Faults, accounts: set<int>) {
    match what
    case MissedWebhook => !CallsSucceed(o, f, accounts)
    case AmountMismatch => CallsSucceed(o, f, accounts) && reply.Answer? && reply.amount > 0 && reply.amount != o.amount
    case MissingCredit => false
  }

  lemma OrderPaidLeavesIssues(b: Books, no: string, f: Faults)
    ensures OrderPaid(b, no, f).0.issues == b.issues
  {
  }

  lemma RecoverFiles(b: Books, i: nat, reply: Reply, f: Faults, what: IssueType, no: string)
    requires Honest(b) && i < |b.orders| && b.orders[i].status.Pending?
    ensures OpenIssue(Recover(b, b.orders[i], reply, f).0.issues, what, no) <==>
      OpenIssue(b.issues, what, no)
      || (no == b.orders[i].no && Confirmed(b.orders[i], reply) && Deserves(what, b.orders[i], reply, f, b.balances.Keys) && !f.createFails)
  {
    var o := b.orders[i];
    if Confirmed(o, reply) {
      var (b1, ok) := OrderPaid(b, o.no, f);
      OrderPaidLeavesIssues(b, o.no, f);
      SuccessSettles(b, o.no, f, i);
      FiledIff(b1, MissedWebhook, o.no, f, what, no);
      FiledIff(b1, AmountMismatch, o.no, f, what, no);
    }
  }

  /** The issues of a whole pass, order by order: one is open afterwards exactly if it was
      before, or the order was on the list, confirmed, deserves it, and the insert worked. */
  lemma {:induction false} EveryDeservedIssueIsFiled(b: Books, list: seq<Order>, provider: string -> Reply, faults: string -> Faults,
                                                    i: nat, what: IssueType)
    requires Honest(b) && Worklist(b, list) && i < |b.orders|
    ensures var o, b' := b.orders[i], RecoverAll(b, list, provider, faults).0;
      OpenIssue(b'.issues, what, o.no) <==>
        OpenIssue(b.issues, what, o.no)
        || (o in list && Confirmed(o, provider(o.no)) && Deserves(what, o, provider(o.no), faults(o.no), b.balances.Keys)
            && !faults(o.no).createFails)
  {
    if list != [] {
      var rest, o := list[..|list| - 1], list[|list| - 1];
      assert list == rest + [o];
      WorklistPrefix(b, list);
      RecoverAllKeepsBooks(b, rest, provider, faults);
      var b1 := RecoverAll(b, rest, provider, faults).0;
      var j :| 0 <= j < |b.orders| && b.orders[j] == o;
      EveryConfirmedOrderIsSettled(b, rest, provider, faults, j);
      assert b1.orders[j] == o;
      EveryDeservedIssueIsFiled(b, rest, provider, faults, i, what);
      RecoverFiles(b1, j, provider(o.no), faults(o.no), what, b.orders[i].no);
      assert i != j ==> b.orders[i].no != o.no;
    }
  }

  /** A webhook repeated for an order that is no longer pending changes nothing and succeeds
      when its calls do. */
  lemma SettledOrdersAreLeft(b: Books, i: nat, f: Faults)
    requires DistinctNumbers(b.orders) && i < |b.orders| && !b.orders[i].status.Pending?
    ensures OrderPaid(b, b.orders[i].no, f) == (b, f.update.NoFault? && !f.reread)
  {
    assert Find(b.orders, b.orders[i].no).value == i;
  }

  lemma UnknownOrdersFail(b: Books, no: string, f: Faults)
    requires forall i :: 0 <= i < |b.orders| ==> b.orders[i].no != no
    ensures OrderPaid(b, no, f) == (b, false)
  {
  }

  /** How many orders on a list are confirmed and go through. */
  function GoThrough(list: seq<Order>, provider: string -> Reply, faults: string -> Faults, accounts: set<int>): nat {
    if list == [] then 0
    else
      var o := list[|list| - 1];
      GoThrough(list[..|list| - 1], provider, faults, accounts)
      + (if Confirmed(o, provider(o.no)) && CallsSucceed(o, faults(o.no), accounts) then 1 else 0)
  }

  /** The pass's counter counts those. */
  lemma {:induction false} RecoveredAreCounted(b: Books, list: seq<Order>, provider: string -> Reply, faults: string -> Faults)
    requires Honest(b) && Worklist(b, list)
    ensures RecoverAll(b, list, provider, faults).1 == GoThrough(list, provider, faults, b.balances.Keys)
  {
    if list != [] {
      var rest, o := list[..|list| - 1], list[|list| - 1];
      WorklistPrefix(b, list);
      RecoverAllKeepsBooks(b, rest, provider, faults);
      RecoveredAreCounted(b, rest, provider, faults);
      var b1 := RecoverAll(b, rest, provider, faults).0;
      var j :| 0 <= j < |b.orders| && b.orders[j] == o;
      EveryConfirmedOrderIsSettled(b, rest, provider, faults, j);
      assert b1.orders[j] == o;
      SuccessSettles(b1, o.no, faults(o.no), j);
    }
  }

  /** Every orphan the check finds has an open issue afterwards, unless its insert failed. */
  lemma {:induction false} OrphansAreReported(b: Books, orphans: seq<Order>, faults: string -> Faults, o: Order)
    requires o in orphans && !faults(o.no).createFails
    ensures OpenIssue(ReportAll(b, orphans, faults).issues, MissingCredit, o.no)
  {
    var rest, last := orphans[..|orphans| - 1], orphans[|orphans| - 1];
    var b1 := ReportAll(b, rest, faults);
    if o == last {
      FilingOpensAnIssue(b1, MissingCredit, o.no, faults(o.no));
    } else {
      assert orphans == rest + [last];
      OrphansAreReported(b, rest, faults, o);
      OpenIssueStays(b1.issues, ReportAll(b, orphans, faults).issues, MissingCredit, o.no);
    }
  }

  /** Reporting again adds no issue when every orphan already has an open one and the counts work. */
  lemma {:induction false} ReportingAgainAddsNothing(b: Books, orphans: seq<Order>, faults: string -> Faults)
    requires forall o :: o in orphans ==> OpenIssue(b.issues, MissingCredit, o.no) && !faults(o.no).countFails
    ensures ReportAll(b, orphans, faults).issues == b.issues
  {
    if orphans != [] {
      ReportingAgainAddsNothing(b, orphans[..|orphans| - 1], faults);
    }
  }

  // ---- One tick of the worker ----

  lemma {:induction false} PickIsDistinct(orders: seq<Order>, p: Order -> bool)
    requires DistinctNumbers(orders)
    ensures forall j, k :: 0 <= j < k < |Pick(orders, p)| ==> Pick(orders, p)[j].no != Pick(orders, p)[k].no
  {
    if orders != [] {
      var rest := orders[..|orders| - 1];
      PickIsDistinct(rest, p);
      forall j | 0 <= j < |Pick(rest, p)| ensures Pick(rest, p)[j].no != orders[|orders| - 1].no {
        assert Pick(rest, p)[j] in rest;
      }
    }
  }

  function StaleList(orders: seq<Order>, now: int): seq<Order> {
    Limit(OrderBy(Pick(orders, StaleTest(now)), Older()), STALE_LIMIT)
  }

  function OrphanList(b: Books): seq<Order> {
    Limit(OrderBy(Pick(b.orders, OrphanTest(b.ledger)), PaidLater()), ORPHAN_LIMIT)
  }

  /** How the store calls that open the steps end: the expiry update, and whether each of the
      two searches fails. A worker without a payment registry behaves like a failed `stale`. */
  datatype Weather = Weather(expire: WriteFault, orphans: bool, stale: bool, faults: string -> Faults)

  function AfterExpiry(b: Books, now: int, w: Weather): Books {
    if w.expire.Applied() then b.(orders := ExpireOverdue(b.orders, now)) else b
  }

  function AfterCheck(b: Books, w: Weather): Books {
    if w.orphans then b else ReportAll(b, OrphanList(b), w.faults)
  }

  function AfterTick(b: Books, now: int, provider: string -> Reply, w: Weather): Books {
    var b2 := AfterCheck(AfterExpiry(b, now, w), w);
    if w.stale then b2 else RecoverAll(b2, StaleList(b2.orders, now), provider, w.faults).0
  }

  lemma ExpiryKeepsBooks(b: Books, now: int)
    requires Honest(b)
    ensures var b' := b.(orders := ExpireOverdue(b.orders, now)); Honest(b') && Follows(b, b')
  {
    var b' := b.(orders := ExpireOverdue(b.orders, now));
    forall k | 0 <= k < |b'.ledger| ensures HasOrder(b'.orders, b'.ledger[k]) {
      var j :| 0 <= j < |b.orders| && Explains(b.orders[j], b.ledger[k]);
      assert Explains(b'.orders[j], b'.ledger[k]);
    }
  }

  lemma CountedOnce(a: seq<Order>, p: nat)
    requires DistinctNumbers(a) && p < |a|
    ensures multiset(a)[a[p]] == 1
  {
    assert a == a[..p] + [a[p]] + a[p + 1..];
    assert a[p] !in a[..p] && a[p] !in a[p + 1..];
  }

  lemma CountedTwice(b: seq<Order>, j: nat, k: nat)
    requires j < k < |b| && b[j] == b[k]
    ensures multiset(b)[b[j]] >= 2
  {
    assert b == b[..k] + b[k..];
    assert b[..k][j] == b[j] && b[k..][0] == b[j];
  }

  lemma PermutedNumbers(a: seq<Order>, b: seq<Order>)
    requires DistinctNumbers(a) && multiset(a) == multiset(b)
    ensures DistinctNumbers(b)
  {
    forall j, k | 0 <= j < k < |b| ensures b[j].no != b[k].no {
      assert b[j] in multiset(b) && b[k] in multiset(b);
      assert b[j] in a && b[k] in a;
      var p :| 0 <= p < |a| && a[p] == b[j];
      CountedOnce(a, p);
      if b[j] == b[k] { CountedTwice(b, j, k); }
    }
  }

  lemma PaidLaterRanks()
    ensures Ranks(PaidLater())
  {
    var before := PaidLater();
    forall a, b, c | !before(b, a) && !before(c, b) ensures !before(c, a) {
      assert a.paidAt.Some? ==> b.paidAt.Some? && c.paidAt.Some?;
    }
  }

  lemma StaleListIsAWorklist(b: Books, now: int)
    requires Honest(b)
    ensures Worklist(b, StaleList(b.orders, now))
  {
    var picked := Pick(b.orders, StaleTest(now));
    PickIsDistinct(b.orders, StaleTest(now));
    OrderByIs(picked, Older());
    PermutedNumbers(picked, OrderBy(picked, Older()));
    forall o | o in StaleList(b.orders, now) ensures o in b.orders && o.status.Pending? {
      SameRows(picked, Older(), STALE_LIMIT, o);
      assert StaleTest(now)(o);
    }
  }

  /** The list is full before a stale order is left out, and then holds none that is younger. */
  lemma StaleListIsTheOldest(orders: seq<Order>, now: int, inside: Order, outside: Order)
    requires inside in StaleList(orders, now) && outside in orders && IsStale(outside, now) && outside !in StaleList(orders, now)
    ensures |StaleList(orders, now)| == STALE_LIMIT && inside in orders && IsStale(inside, now) && inside.created <= outside.created
  {
    assert StaleTest(now)(outside);
    ForemostAreIn(Pick(orders, StaleTest(now)), Older(), STALE_LIMIT, inside, outside);
    assert StaleTest(now)(inside);
  }

  /** The list is full before an orphan is left out, and then holds none that was paid earlier:
      while a hundred newer orphans stay unresolved, an older one is never reported. */
  lemma OrphanListIsTheNewest(b: Books, inside: Order, outside: Order)
    requires inside in OrphanList(b) && outside in b.orders && IsOrphan(outside, b.ledger) && outside !in OrphanList(b)
    ensures |OrphanList(b)| == ORPHAN_LIMIT && inside in b.orders && IsOrphan(inside, b.ledger)
    ensures inside.paidAt.Some? ==> outside.paidAt.Some? && inside.paidAt.value >= outside.paidAt.value
  {
    assert OrphanTest(b.ledger)(outside);
    PaidLaterRanks();
    ForemostAreIn(Pick(b.orders, OrphanTest(b.ledger)), PaidLater(), ORPHAN_LIMIT, inside, outside);
    assert OrphanTest(b.ledger)(inside);
    assert !PaidLater()(outside, inside);
  }

  lemma ChecksKeepBooks(b: Books, now: int, w: Weather)
    requires Honest(b)
    ensures var b1 := AfterExpiry(b, now, w);
      var b2 := AfterCheck(b1, w);
      Honest(b2) && Follows(b, b2) && b2.orders == b1.orders && b2.ledger == b.ledger
  {
    var b1 := AfterExpiry(b, now, w);
    ExpiryKeepsBooks(b, now);
    ReportOnlyFiles(b1, OrphanList(b1), w.faults);
    FilingKeepsBooks(b, b1, AfterCheck(b1, w));
  }

  /** A tick conserves money and honesty whatever fails. */
  lemma TickKeepsBooks(b: Books, now: int, provider: string -> Reply, w: Weather)
    requires Honest(b)
    ensures Honest(AfterTick(b, now, provider, w)) && Follows(b, AfterTick(b, now, provider, w))
  {
    ChecksKeepBooks(b, now, w);
    var b2 := AfterCheck(AfterExpiry(b, now, w), w);
    RecoverAllKeepsBooks(b2, StaleList(b2.orders, now), provider, w.faults);
    if !w.stale { FollowsIsTransitive(b, b2, RecoverAll(b2, StaleList(b2.orders, now), provider, w.faults).0); }
  }

  ghost predicate InTime(b: Books, now: int, o: Order) {
    o in StaleList(ExpireOverdue(b.orders, now), now)
  }

  /** The verdict of a tick whose store calls succeed on a pending order: overdue means
      expired and uncredited, even if the provider would confirm it, because expiry comes
      first; otherwise it is paid exactly when it is among the oldest fifty and confirmed. */
  lemma TickVerdict(b: Books, now: int, provider: string -> Reply, w: Weather, i: nat)
    requires Honest(b) && i < |b.orders| && b.orders[i].status.Pending?
    requires w.expire.NoFault? && !w.stale && w.faults(b.orders[i].no).update.NoFault?
    ensures var b' := AfterTick(b, now, provider, w);
      var o := b.orders[i];
      && |b'.orders| == |b.orders|
      && b'.orders[i].status == (if Overdue(o, now) then Expired
                                 else if InTime(b, now, o) && Confirmed(o, provider(o.no)) then Paid else Pending)
      && (Overdue(o, now) ==> !Credited(b'.ledger, o.no))
  {
    var o := b.orders[i];
    TickKeepsBooks(b, now, provider, w);
    ChecksKeepBooks(b, now, w);
    var b2 := AfterCheck(AfterExpiry(b, now, w), w);
    StaleListIsAWorklist(b2, now);
    EveryConfirmedOrderIsSettled(b2, StaleList(b2.orders, now), provider, w.faults, i);
    if Overdue(o, now) { PendingIsUncredited(AfterTick(b, now, provider, w), i); }
  }
}
