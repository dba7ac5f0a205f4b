/** One payment order under concurrent webhook deliveries, reconciler recoveries,
    stale-order expiry and the checkout handler's full-row save. */
module TopupOrder {
  import opened Prelude

  datatype Status = Pending | Paid | Expired
  datatype Kind = Topup | Subscription
  datatype Entry = Entry(account: int, amount: int)

  /** A call of MarkOrderPaid: the conditional UPDATE, the SELECT that follows it, the credit. */
  datatype Pc = Updating | Rereading(flipped: bool) | Crediting | Returned(ok: bool)

  datatype Blame = Nobody | FlipReplyLost | RereadFailed | CreditFailed(applied: bool)

  datatype State = State(
    kind: Kind,
    account: int,
    amount: int,
    status: Status,
    trail: seq<Status>,          // every status written, oldest first
    ledger: seq<Entry>,          // wallet transactions that reference this order
    payers: map<nat, Pc>,
    lateSave: bool,              // a checkout handler wrote its snapshot back when the order was no longer pending
    blame: Blame                 // the error at which the payer that flipped the order gave up
  )

  datatype Step =
    | Deliver(t: nat)
    | Update(t: nat, fault: WriteFault)
    | Reread(t: nat, fails: bool)
    | Credit(t: nat, fault: WriteFault)
    | ExpireStale
    | SaveSnapshot

  ghost predicate Init(s: State) {
    s.status == Pending && s.trail == [Pending] && s.ledger == [] && s.payers == map[]
    && !s.lateSave && s.blame == Nobody
  }

  function Write(s: State, status: Status): State {
    s.(status := status, trail := s.trail + [status])
  }

  function Goto(s: State, t: nat, pc: Pc): State {
    s.(payers := s.payers[t := pc])
  }

  /** UPDATE ... WHERE status = 'pending' */
  function NextUpdate(s: State, t: nat, fault: WriteFault): State {
    if fault.FailedBefore? then Goto(s, t, Returned(false))
    else if s.status == Pending then
      (if fault.ReplyLost? then Goto(Write(s, Paid).(blame := FlipReplyLost), t, Returned(false))
       else Goto(Write(s, Paid), t, Rereading(true)))
    else if fault.ReplyLost? then Goto(s, t, Returned(false))
    else Goto(s, t, Rereading(false))
  }

  function NextReread(s: State, t: nat, flipped: bool, fails: bool): State {
    if fails then Goto(if flipped then s.(blame := RereadFailed) else s, t, Returned(false))
    else if flipped && s.kind == Topup then Goto(s, t, Crediting)
    else Goto(s, t, Returned(true))
  }

  /** One transaction; the ledger's unique reference admits one entry. */
  function NextCredit(s: State, t: nat, fault: WriteFault): State {
    if fault.FailedBefore? || s.ledger != [] then Goto(s.(blame := CreditFailed(false)), t, Returned(false))
    else
      var s' := s.(ledger := [Entry(s.account, s.amount)]);
      if fault.ReplyLost? then Goto(s'.(blame := CreditFailed(true)), t, Returned(false)) else Goto(s', t, Returned(true))
  }

  /** The whole row as a checkout request read it, pending; requests that repeat an
      idempotency key read and save the same order again. */
  function NextSave(s: State): State {
    if s.status == Pending then s else Write(s, Pending).(lateSave := true)
  }

  function Next(s: State, st: Step): State {
    match st
    case Deliver(t) => if t in s.payers then s else Goto(s, t, Updating)
    case Update(t, fault) => if t in s.payers && s.payers[t].Updating? then NextUpdate(s, t, fault) else s
    case Reread(t, fails) =>
      if t in s.payers && s.payers[t].Rereading? then NextReread(s, t, s.payers[t].flipped, fails) else s
    case Credit(t, fault) => if t in s.payers && s.payers[t].Crediting? then NextCredit(s, t, fault) else s
    case ExpireStale => if s.status == Pending then Write(s, Expired) else s
    case SaveSnapshot => NextSave(s)
  }

  function Run(s: State, steps: seq<Step>): State
    decreases |steps|
  {
    if steps == [] then s else Run(Next(s, steps[0]), steps[1..])
  }

  ghost predicate Lifecycle(trail: seq<Status>) {
    trail == [Pending] || trail == [Pending, Paid] || trail == [Pending, Expired]
  }

  ghost predicate Winning(pc: Pc) { pc == Rereading(true) || pc.Crediting? }

  /** Holds on every run: one ledger entry at most, thanks to its unique reference. */
  ghost predicate Bounded(s: State) {
    && s.trail != [] && s.trail[0] == Pending && s.trail[|s.trail| - 1] == s.status
    && (s.ledger == [] || s.ledger == [Entry(s.account, s.amount)])
    && (s.ledger != [] ==> s.kind == Topup)
    && (forall t :: t in s.payers && s.payers[t].Crediting? ==> s.kind == Topup)
    && (s.lateSave ==> exists k :: 1 <= k < |s.trail| && s.trail[k] == Pending)
  }

  /** Holds as long as no late save has reopened the order. */
  ghost predicate Orderly(s: State) {
    && Lifecycle(s.trail) && s.trail[|s.trail| - 1] == s.status
    && (forall t :: t in s.payers && Winning(s.payers[t]) ==> s.status == Paid && s.ledger == [] && s.blame == Nobody)
    && (forall t, u :: t in s.payers && u in s.payers && Winning(s.payers[t]) && Winning(s.payers[u]) ==> t == u)
    && (s.ledger != [] || s.blame != Nobody ==> s.status == Paid)
    && (Blamed(s.blame) ==> s.ledger == [])
    && (s.blame == CreditFailed(true) ==> s.ledger != [])
    && (Unexplained(s) ==> exists t :: t in s.payers && Winning(s.payers[t]))
  }

  /** An error that left the order without its credit. */
  predicate Blamed(b: Blame) { b == FlipReplyLost || b == RereadFailed || b == CreditFailed(false) }

  predicate Uncredited(s: State) { s.status == Paid && s.kind == Topup && s.ledger == [] }

  predicate Unexplained(s: State) { Uncredited(s) && s.blame == Nobody }

  ghost predicate Inv(s: State) { Bounded(s) && (!s.lateSave ==> Orderly(s)) }

  /** What any step may do to the parts that bound the credits. */
  ghost predicate Allowed(s: State, s': State) {
    && s'.kind == s.kind && s'.account == s.account && s'.amount == s.amount
    && (s'.ledger == s.ledger || (s.ledger == [] && s'.ledger == [Entry(s.account, s.amount)] && s.kind == Topup))
    && (forall t :: t in s'.payers && s'.payers[t].Crediting? ==> s'.kind == Topup)
    && if s'.trail == s.trail then s'.status == s.status && s'.lateSave == s.lateSave
       else s'.trail == s.trail + [s'.status] && (s'.lateSave ==> s.lateSave || s'.status == Pending)
  }

  lemma UpdateIsAllowed(s: State, t: nat, fault: WriteFault)
    requires Bounded(s)
    ensures Allowed(s, NextUpdate(s, t, fault))
  {
  }

  lemma RereadIsAllowed(s: State, t: nat, flipped: bool, fails: bool)
    requires Bounded(s)
    ensures Allowed(s, NextReread(s, t, flipped, fails))
  {
  }

  lemma CreditIsAllowed(s: State, t: nat, fault: WriteFault)
    requires Bounded(s) && t in s.payers && s.payers[t].Crediting?
    ensures Allowed(s, NextCredit(s, t, fault))
  {
  }

  lemma StepIsAllowed(s: State, st: Step)
    requires Bounded(s)
    ensures Allowed(s, Next(s, st))
  {
    match st
    case Deliver(t) =>
    case Update(t, fault) => UpdateIsAllowed(s, t, fault);
    case Reread(t, fails) => if t in s.payers && s.payers[t].Rereading? { RereadIsAllowed(s, t, s.payers[t].flipped, fails); }
    case Credit(t, fault) => if t in s.payers && s.payers[t].Crediting? { CreditIsAllowed(s, t, fault); }
    case ExpireStale =>
    case SaveSnapshot =>
  }

  lemma AllowedIsBounded(s: State, s': State)
    requires Bounded(s) && Allowed(s, s')
    ensures Bounded(s')
  {
    if s.lateSave {
      var k :| 1 <= k < |s.trail| && s.trail[k] == Pending;
      assert s'.trail[k] == Pending;
    } else if s'.lateSave {
      assert s'.trail[|s.trail|] == Pending;
    }
  }

  /** Nothing but a payer that is no winner, before or after, moves. */
  lemma QuietIsOrderly(s: State, t: nat, pc: Pc)
    requires Orderly(s) && !Winning(pc) && (t in s.payers ==> !Winning(s.payers[t]))
    ensures Orderly(Goto(s, t, pc))
  {
    var s' := Goto(s, t, pc);
    if Unexplained(s') {
      var u :| u in s.payers && Winning(s.payers[u]);
      assert u in s'.payers && Winning(s'.payers[u]);
    }
  }

  function Flipped(s: State, t: nat, lost: bool): State {
    if lost then Goto(Write(s, Paid).(blame := FlipReplyLost), t, Returned(false)) else Goto(Write(s, Paid), t, Rereading(true))
  }

  lemma FlipIsOrderly(s: State, t: nat, lost: bool)
    requires Orderly(s) && t in s.payers && s.payers[t].Updating? && s.status == Pending
    ensures Orderly(Flipped(s, t, lost))
  {
    var s' := Flipped(s, t, lost);
    assert s'.trail == [Pending, Paid];
    if !lost { assert Winning(s'.payers[t]); }
  }

  lemma UpdateIsOrderly(s: State, t: nat, fault: WriteFault)
    requires Orderly(s) && t in s.payers && s.payers[t].Updating?
    ensures Orderly(NextUpdate(s, t, fault))
  {
    if s.status == Pending && fault.Applied() {
      FlipIsOrderly(s, t, fault.ReplyLost?);
    } else {
      QuietIsOrderly(s, t, if fault.NoFault? then Rereading(false) else Returned(false));
    }
  }

  /** A winner's step: it stays the winner, or the credit or the error explains the order. */
  lemma WinnerMovesOn(s: State, s': State, t: nat, pc: Pc)
    requires Orderly(s) && t in s.payers && (s.payers[t].Rereading? || s.payers[t].Crediting?)
    requires s' == s.(payers := s.payers[t := pc], ledger := s'.ledger, blame := s'.blame)
    requires if Winning(s.payers[t]) then Winning(pc) || (s'.kind == Topup ==> s'.ledger != [] || s'.blame != Nobody) else !Winning(pc)
    requires Winning(pc) || !Winning(s.payers[t]) ==> s'.ledger == s.ledger && s'.blame == s.blame
    requires (Blamed(s'.blame) ==> s'.ledger == []) && (s'.blame == CreditFailed(true) ==> s'.ledger != [])
    ensures Orderly(s')
  {
    if Unexplained(s') {
      var u :| u in s.payers && Winning(s.payers[u]);
      assert u in s'.payers && Winning(s'.payers[u]);
    }
  }

  lemma RereadIsOrderly(s: State, t: nat, fails: bool)
    requires Orderly(s) && t in s.payers && s.payers[t].Rereading?
    ensures Orderly(NextReread(s, t, s.payers[t].flipped, fails))
  {
    var s' := NextReread(s, t, s.payers[t].flipped, fails);
    WinnerMovesOn(s, s', t, s'.payers[t]);
  }

  lemma CreditIsOrderly(s: State, t: nat, fault: WriteFault)
    requires Orderly(s) && t in s.payers && s.payers[t].Crediting?
    ensures Orderly(NextCredit(s, t, fault))
  {
    var s' := NextCredit(s, t, fault);
    WinnerMovesOn(s, s', t, s'.payers[t]);
  }

  lemma PayerStepIsOrderly(s: State, st: Step)
    requires Orderly(s) && (st.Update? || st.Reread? || st.Credit?)
    ensures Orderly(Next(s, st))
  {
    if st.Update? && st.t in s.payers && s.payers[st.t].Updating? {
      UpdateIsOrderly(s, st.t, st.fault);
    } else if st.Reread? && st.t in s.payers && s.payers[st.t].Rereading? {
      RereadIsOrderly(s, st.t, st.fails);
    } else if st.Credit? && st.t in s.payers && s.payers[st.t].Crediting? {
      CreditIsOrderly(s, st.t, st.fault);
    }
  }

  lemma OtherStepIsOrderly(s: State, st: Step)
    requires Orderly(s) && (st.Deliver? || st.ExpireStale? || st.SaveSnapshot?) && !Next(s, st).lateSave
    ensures Orderly(Next(s, st))
  {
    var s' := Next(s, st);
    if Unexplained(s') {
      var t :| t in s.payers && Winning(s.payers[t]);
      assert t in s'.payers && Winning(s'.payers[t]);
    }
  }

  lemma StepKeepsInv(s: State, st: Step)
    requires Inv(s)
    ensures Inv(Next(s, st))
  {
    StepIsAllowed(s, st);
    AllowedIsBounded(s, Next(s, st));
    if !Next(s, st).lateSave {
      if st.Update? || st.Reread? || st.Credit? { PayerStepIsOrderly(s, st); } else { OtherStepIsOrderly(s, st); }
    }
  }

  lemma {:induction false} RunKeepsInv(s: State, steps: seq<Step>)
    requires Inv(s)
    ensures Inv(Run(s, steps))
    decreases |steps|
  {
    if steps != [] {
      StepKeepsInv(s, steps[0]);
      RunKeepsInv(Next(s, steps[0]), steps[1..]);
    }
  }

  ghost predicate Reachable(s: State) {
    exists start: State, steps: seq<Step> :: Init(start) && s == Run(start, steps)
  }

  lemma ReachableHasInv(s: State)
    requires Reachable(s)
    ensures Inv(s)
  {
    var start: State, steps: seq<Step> :| Init(start) && s == Run(start, steps);
    RunKeepsInv(start, steps);
  }

  /** Whatever interleaves, the order is credited at most once, for its own account
      and amount, and only if it is a top-up. */
  lemma CreditedAtMostOnce(s: State)
    requires Reachable(s)
    ensures |s.ledger| <= 1
    ensures forall e :: e in s.ledger ==> s.kind == Topup && e == Entry(s.account, s.amount)
  {
    ReachableHasInv(s);
  }

  /** The order keeps to pending, paid or pending, expired exactly as long as the
      checkout handler's save found it pending. */
  lemma LifecycleIff(s: State)
    requires Reachable(s)
    ensures Lifecycle(s.trail) <==> !s.lateSave
  {
    ReachableHasInv(s);
  }

  /** Then a credited order is a paid one, so never one that expired; and the paid top-ups
      without a credit, those the integrity check reports, are exactly the top-ups whose one
      winner is still between its steps or gave up at an error before its credit took effect. */
  lemma PaidUncreditedIff(s: State)
    requires Reachable(s) && !s.lateSave
    ensures s.ledger != [] ==> s.status == Paid
    ensures Uncredited(s) <==>
      s.kind == Topup && ((exists t :: t in s.payers && Winning(s.payers[t])) || Blamed(s.blame))
    ensures forall t, u :: t in s.payers && u in s.payers && Winning(s.payers[t]) && Winning(s.payers[u]) ==> t == u
  {
    ReachableHasInv(s);
  }

  /** A payer left alone with a pending order flips it exactly when its UPDATE takes effect,
      credits a top-up exactly when it then gets as far as the credit and that takes effect, and
      reports success exactly when nothing failed; the first error it sees explains the rest. */
  lemma PaymentAlone(s: State, t: nat, update: WriteFault, rereadFails: bool, credit: WriteFault)
    requires Reachable(s) && s.status == Pending && s.ledger == [] && t !in s.payers
    ensures var s' := Next(Next(Next(Next(s, Deliver(t)), Update(t, update)), Reread(t, rereadFails)), Credit(t, credit));
      var goesOn := update.NoFault? && !rereadFails;
      var credits := goesOn && s.kind == Topup;
      && s'.status == (if update.Applied() then Paid else Pending)
      && s'.ledger == (if credits && credit.Applied() then [Entry(s.account, s.amount)] else [])
      && s'.payers == s.payers[t := Returned(goesOn && (credits ==> credit.NoFault?))]
      && s'.blame == (if update.ReplyLost? then FlipReplyLost
                      else if update.NoFault? && rereadFails then RereadFailed
                      else if credits && credit.Reported() then CreditFailed(credit.Applied())
                      else s.blame)
  {
    var s1 := Next(s, Deliver(t));
    var s2 := Next(s1, Update(t, update));
    var s3 := Next(s2, Reread(t, rereadFails));
    var s4 := Next(s3, Credit(t, credit));
    if update.NoFault? {
      assert s2.payers[t] == Rereading(true);
      assert s3.payers[t] == (if rereadFails then Returned(false) else if s.kind == Topup then Crediting else Returned(true));
    } else {
      assert s2.payers[t] == Returned(false) && s3 == s2;
    }
    assert s4.payers == s.payers[t := s4.payers[t]];
  }

  /** A second delivery, of an order that is paid or expired, moves neither status nor ledger,
      and reports success all the same when its two statements work. */
  lemma RedeliveryChangesNothing(s: State, t: nat, update: WriteFault, rereadFails: bool, credit: WriteFault)
    requires Reachable(s) && s.status != Pending && t !in s.payers
    ensures var s' := Next(Next(Next(Next(s, Deliver(t)), Update(t, update)), Reread(t, rereadFails)), Credit(t, credit));
      s' == s.(payers := s.payers[t := Returned(update.NoFault? && !rereadFails)])
  {
    var s1 := Next(s, Deliver(t));
    var s2 := Next(s1, Update(t, update));
    var s3 := Next(s2, Reread(t, rereadFails));
    assert s2.payers[t] == (if update.NoFault? then Rereading(false) else Returned(false));
    assert s3.payers[t].Returned?;
    assert s3.payers == s.payers[t := s3.payers[t]];
  }

  lemma {:induction false} RunSnoc(s: State, steps: seq<Step>, st: Step)
    ensures Run(s, steps + [st]) == Next(Run(s, steps), st)
    decreases |steps|
  {
    if steps == [] {
      assert ([] + [st])[1..] == [];
    } else {
      assert (steps + [st])[1..] == steps[1..] + [st];
      RunSnoc(Next(s, steps[0]), steps[1..], st);
    }
  }

  lemma NextIsReachable(s: State, st: Step)
    requires Reachable(s)
    ensures Reachable(Next(s, st))
  {
    var start: State, steps: seq<Step> :| Init(start) && s == Run(start, steps);
    RunSnoc(start, steps, st);
  }

  lemma PaidOrder(account: int, amount: int) returns (s: State)
    ensures Reachable(s) && s.trail == [Pending, Paid] && s.status == Paid && s.ledger == [Entry(account, amount)]
  {
    s := State(Topup, account, amount, Pending, [Pending], [], map[], false, Nobody);
    assert Reachable(s) by { assert s == Run(s, []); }
    NextIsReachable(s, Deliver(0));
    s := Next(s, Deliver(0));
    NextIsReachable(s, Update(0, NoFault));
    s := Next(s, Update(0, NoFault));
    assert s.payers[0] == Rereading(true);
    NextIsReachable(s, Reread(0, false));
    s := Next(s, Reread(0, false));
    assert s.payers[0] == Crediting;
    NextIsReachable(s, Credit(0, NoFault));
    s := Next(s, Credit(0, NoFault));
  }

  /** Concretely: a save that comes after the payment reopens a credited order, which
      can then expire although its money has been credited. */
  lemma LateSaveReopens(account: int, amount: int) returns (s: State)
    ensures Reachable(s) && s.lateSave && s.status == Expired && s.ledger == [Entry(account, amount)]
  {
    var paid := PaidOrder(account, amount);
    NextIsReachable(paid, SaveSnapshot);
    s := Next(paid, SaveSnapshot);
    NextIsReachable(s, ExpireStale);
    s := Next(s, ExpireStale);
  }
}
