/** One refund under any number of concurrent Approve and Reject calls. */
module Refunds {
  import opened Prelude

  datatype Status = Pending | Approved | Rejected | Completed

  /** A wallet credit with reference (refund, refund, number of this refund). */
  datatype Entry = Entry(account: int, amount: int)

  datatype Pc = Reading | Updating | Crediting | Completing | Returned(ok: bool)
  datatype Call = Call(approves: bool, pc: Pc)

  /** Which store write of the deciding Approve call reported an error, and what it had done. */
  datatype Blame = Nobody | ApprovalReplyLost | CreditFailed(applied: bool) | CompletionFailed(applied: bool)

  datatype State = State(
    account: int,
    amount: int,
    status: Status,
    trail: seq<Status>,       // every status written, oldest first
    ledger: seq<Entry>,
    calls: map<nat, Call>,
    blame: Blame,
    retries: nat              // credit_retry events offered to the outbox
  )

  datatype Step =
    | Start(t: nat, approves: bool)
    | Read(t: nat, fails: bool)
    | Update(t: nat, fault: WriteFault)
    | Credit(t: nat, fault: WriteFault)
    | Complete(t: nat, fault: WriteFault)

  ghost predicate Init(s: State) {
    s.status == Pending && s.trail == [Pending] && s.ledger == [] && s.calls == map[] && s.blame == Nobody && s.retries == 0
  }

  function Goto(s: State, t: nat, pc: Pc): State
    requires t in s.calls
  {
    s.(calls := s.calls[t := s.calls[t].(pc := pc)])
  }

  function Write(s: State, status: Status): State {
    s.(status := status, trail := s.trail + [status])
  }

  /** The conditional update errs when it matches no row. */
  function NextUpdate(s: State, t: nat, fault: WriteFault): State
    requires t in s.calls && s.calls[t].pc.Updating?
  {
    var approves := s.calls[t].approves;
    if fault.FailedBefore? || s.status != Pending then Goto(s, t, Returned(false))
    else
      var s' := Write(s, if approves then Approved else Rejected);
      if fault.ReplyLost? then Goto(s'.(blame := if approves then ApprovalReplyLost else s.blame), t, Returned(false))
      else Goto(s', t, if approves then Crediting else Returned(true))
  }

  function NextCredit(s: State, t: nat, fault: WriteFault): State
    requires t in s.calls && s.calls[t].pc.Crediting?
  {
    var applied := fault.Applied() && s.ledger == []; // the ledger's reference is unique
    var s' := if applied then s.(ledger := [Entry(s.account, s.amount)]) else s;
    if applied && fault.NoFault? then Goto(s', t, Completing)
    else Goto(s'.(blame := CreditFailed(applied), retries := s.retries + 1), t, Returned(false))
  }

  /** Unconditional, unlike the other status writes. */
  function NextComplete(s: State, t: nat, fault: WriteFault): State
    requires t in s.calls && s.calls[t].pc.Completing?
  {
    var s' := if fault.Applied() then Write(s, Completed) else s;
    if fault.NoFault? then Goto(s', t, Returned(true))
    else Goto(s'.(blame := CompletionFailed(fault.Applied())), t, Returned(false))
  }

  function Next(s: State, st: Step): State {
    match st
    case Start(t, approves) => if t in s.calls then s else s.(calls := s.calls[t := Call(approves, Reading)])
    case Read(t, fails) =>
      if t !in s.calls || !s.calls[t].pc.Reading? then s
      else Goto(s, t, if fails || s.status != Pending then Returned(false) else Updating)
    case Update(t, fault) => if t !in s.calls || !s.calls[t].pc.Updating? then s else NextUpdate(s, t, fault)
    case Credit(t, fault) => if t !in s.calls || !s.calls[t].pc.Crediting? then s else NextCredit(s, t, fault)
    case Complete(t, fault) => if t !in s.calls || !s.calls[t].pc.Completing? then s else NextComplete(s, t, fault)
  }

  function Run(s: State, steps: seq<Step>): State
    decreases |steps|
  {
    if steps == [] then s else Run(Next(s, steps[0]), steps[1..])
  }

  predicate Decided(c: Call) { c.pc.Crediting? || c.pc.Completing? || c.pc == Returned(true) }

  ghost predicate RowOk(s: State) {
    && s.trail == (match s.status
                   case Pending => [Pending]
                   case Approved => [Pending, Approved]
                   case Rejected => [Pending, Rejected]
                   case Completed => [Pending, Approved, Completed])
    && (s.ledger == [] || s.ledger == [Entry(s.account, s.amount)])
    && (s.ledger != [] ==> s.status.Approved? || s.status.Completed?)
    && (s.status.Completed? ==> s.ledger != [])
  }

  ghost predicate BlameOk(s: State) {
    && s.retries == (if s.blame.CreditFailed? then 1 else 0)
    && match s.blame
       case Nobody => true
       case ApprovalReplyLost => s.status.Approved? && s.ledger == []
       case CreditFailed(applied) => s.status.Approved? && (s.ledger != [] <==> applied)
       case CompletionFailed(applied) => s.ledger != [] && (if applied then s.status.Completed? else s.status.Approved?)
  }

  ghost predicate CallOk(c: Call, s: State) {
    match c.pc
    case Reading => true
    case Updating => true
    case Crediting => c.approves && s.status.Approved? && s.ledger == [] && s.blame.Nobody?
    case Completing => c.approves && s.status.Approved? && s.ledger != [] && s.blame.Nobody?
    case Returned(ok) => ok ==> s.blame.Nobody? && if c.approves then s.status.Completed? else s.status.Rejected?
  }

  ghost predicate Inv(s: State) {
    && RowOk(s) && BlameOk(s)
    && (forall t :: t in s.calls ==> CallOk(s.calls[t], s))
    && (forall t, u :: t in s.calls && u in s.calls && Decided(s.calls[t]) && Decided(s.calls[u]) ==> t == u)
    && (s.status.Approved? && s.blame.Nobody? ==> exists t :: t in s.calls && Decided(s.calls[t]))
  }

  lemma QuietKeepsInv(s: State, t: nat, c: Call)
    requires Inv(s) && !Decided(c) && (t in s.calls ==> !Decided(s.calls[t]))
    ensures Inv(s.(calls := s.calls[t := c]))
  {
    var s' := s.(calls := s.calls[t := c]);
    if s.status.Approved? && s.blame.Nobody? {
      var u :| u in s.calls && Decided(s.calls[u]);
      assert u in s'.calls && Decided(s'.calls[u]);
    }
  }

  lemma UpdateKeepsInv(s: State, t: nat, fault: WriteFault)
    requires Inv(s) && t in s.calls && s.calls[t].pc.Updating?
    ensures Inv(NextUpdate(s, t, fault))
  {
    var s' := NextUpdate(s, t, fault);
    if fault.FailedBefore? || s.status != Pending {
      QuietKeepsInv(s, t, s.calls[t].(pc := Returned(false)));
    } else {
      forall u | u in s'.calls ensures CallOk(s'.calls[u], s') && (Decided(s'.calls[u]) ==> u == t) {
        assert CallOk(s.calls[u], s);
      }
      if s'.status.Approved? && s'.blame.Nobody? { assert Decided(s'.calls[t]); }
    }
  }

  lemma CreditKeepsInv(s: State, t: nat, fault: WriteFault)
    requires Inv(s) && t in s.calls && s.calls[t].pc.Crediting?
    ensures Inv(NextCredit(s, t, fault))
  {
    var s' := NextCredit(s, t, fault);
    assert CallOk(s.calls[t], s);
    forall u | u in s'.calls ensures CallOk(s'.calls[u], s') {
      assert CallOk(s.calls[u], s);
      assert u != t ==> !Decided(s.calls[u]);
    }
    if s'.blame.Nobody? { assert Decided(s'.calls[t]); }
  }

  lemma CompleteKeepsInv(s: State, t: nat, fault: WriteFault)
    requires Inv(s) && t in s.calls && s.calls[t].pc.Completing?
    ensures Inv(NextComplete(s, t, fault))
  {
    var s' := NextComplete(s, t, fault);
    assert CallOk(s.calls[t], s);
    forall u | u in s'.calls ensures CallOk(s'.calls[u], s') {
      assert CallOk(s.calls[u], s);
      assert u != t ==> !Decided(s.calls[u]);
    }
  }

  lemma StepKeepsInv(s: State, st: Step)
    requires Inv(s)
    ensures Inv(Next(s, st))
  {
    match st
    case Start(t, approves) => if t !in s.calls { QuietKeepsInv(s, t, Call(approves, Reading)); }
    case Read(t, fails) =>
      if t in s.calls && s.calls[t].pc.Reading? { QuietKeepsInv(s, t, Next(s, st).calls[t]); }
    case Update(t, fault) => if t in s.calls && s.calls[t].pc.Updating? { UpdateKeepsInv(s, t, fault); }
    case Credit(t, fault) => if t in s.calls && s.calls[t].pc.Crediting? { CreditKeepsInv(s, t, fault); }
    case Complete(t, fault) => if t in s.calls && s.calls[t].pc.Completing? { CompleteKeepsInv(s, t, fault); }
  }

  lemma {:induction false} RunKeepsInv(s: State, steps: seq<Step>)
    requires Inv(s)
    ensures Inv(Run(s, steps))
    decreases |steps|
  {
    if steps != [] {
      StepKeepsInv(s, steps[0]);
      RunKeepsInv(Next(s, steps[0]), steps[1..]);
    }
  }

  ghost predicate Reachable(s: State) {
    exists start: State, steps: seq<Step> :: Init(start) && s == Run(start, steps)
  }

  lemma ReachableHasInv(s: State)
    requires Reachable(s)
    ensures Inv(s)
  {
    var start: State, steps: seq<Step> :| Init(start) && s == Run(start, steps);
    RunKeepsInv(start, steps);
  }

  /** The wallet is credited at most once, for exactly the refund's amount, never on a
      pending or rejected refund, and always on a completed one. */
  lemma RefundedAtMostOnce(s: State)
    requires Reachable(s)
    ensures s.ledger == [] || s.ledger == [Entry(s.account, s.amount)]
    ensures s.status.Pending? || s.status.Rejected? ==> s.ledger == []
    ensures s.status.Completed? ==> s.ledger != []
  {
    ReachableHasInv(s);
  }

  /** At most one call ever reports success: a successful Approve left the refund completed
      and credited, a successful Reject left it rejected. */
  lemma OneDecision(s: State, t: nat, u: nat)
    requires Reachable(s) && t in s.calls && s.calls[t].pc == Returned(true)
    ensures if s.calls[t].approves then s.status.Completed? && s.ledger == [Entry(s.account, s.amount)] else s.status.Rejected?
    ensures u in s.calls && s.calls[u].pc == Returned(true) ==> u == t
  {
    ReachableHasInv(s);
    assert CallOk(s.calls[t], s);
  }

  /** When every call has returned, a refund is stuck in approved exactly when the deciding
      Approve saw its approval's reply lost, its credit fail, or its completion not happen;
      the customer has the money exactly when the credit took effect all the same or only
      the completion is missing. One retry is offered exactly when the credit failed. */
  lemma StuckIff(s: State)
    requires Reachable(s) && (forall t :: t in s.calls ==> s.calls[t].pc.Returned?)
    ensures s.status.Approved? <==> s.blame.ApprovalReplyLost? || s.blame.CreditFailed? || s.blame == CompletionFailed(false)
    ensures s.status.Approved? ==> (s.ledger != [] <==> s.blame == CreditFailed(true) || s.blame == CompletionFailed(false))
    ensures s.retries == (if s.blame.CreditFailed? then 1 else 0)
  {
    ReachableHasInv(s);
    forall t | t in s.calls && Decided(s.calls[t]) ensures !s.status.Approved? {
      assert CallOk(s.calls[t], s);
    }
  }

  /** Such a refund stays stuck: no later call moves it, because each one finds it no
      longer pending, and nothing else writes its status or credits it. */
  lemma {:induction false} StuckForGood(s: State, steps: seq<Step>)
    requires Inv(s) && s.status != Pending && (forall t :: t in s.calls ==> s.calls[t].pc.Returned? || s.calls[t].pc.Reading? || s.calls[t].pc.Updating?)
    ensures var s' := Run(s, steps);
      s'.status == s.status && s'.ledger == s.ledger && s'.retries == s.retries
    decreases |steps|
  {
    if steps != [] {
      StepKeepsInv(s, steps[0]);
      StuckForGood(Next(s, steps[0]), steps[1..]);
    }
  }

  /** The schedule of a call that nothing interrupts. */
  function Alone(t: nat, approves: bool, fails: bool, update: WriteFault, credit: WriteFault, complete: WriteFault): seq<Step> {
    [Start(t, approves), Read(t, fails), Update(t, update), Credit(t, credit), Complete(t, complete)]
  }

  function Outcome(s: State, t: nat, steps: seq<Step>): (Status, seq<Entry>, nat, Option<bool>) {
    var s' := Run(s, steps);
    (s'.status, s'.ledger, s'.retries,
     if t in s'.calls && s'.calls[t].pc.Returned? then Some(s'.calls[t].pc.ok) else None)
  }

  lemma RunFive(s: State, a: Step, b: Step, c: Step, d: Step, e: Step)
    ensures Run(s, [a, b, c, d, e]) == Next(Next(Next(Next(Next(s, a), b), c), d), e)
  {
    assert [a, b, c, d, e][1..] == [b, c, d, e] && [b, c, d, e][1..] == [c, d, e];
    assert [c, d, e][1..] == [d, e] && [d, e][1..] == [e] && [e][1..] == [];
    var s2 := Next(Next(s, a), b);
    assert Run(s, [a, b, c, d, e]) == Run(s2, [c, d, e]);
    var s4 := Next(Next(s2, c), d);
    assert Run(s2, [c, d, e]) == Run(s4, [e]) == Run(Next(s4, e), []);
  }

  /** What an uninterrupted Approve leaves behind: status, ledger, retries and its answer. */
  function Approval(s: State, fails: bool, update: WriteFault, credit: WriteFault, complete: WriteFault): (Status, seq<Entry>, nat, Option<bool>) {
    if fails || s.status != Pending || update.FailedBefore? then (s.status, s.ledger, s.retries, Some(false))
    else if update.ReplyLost? then (Approved, s.ledger, s.retries, Some(false))
    else
      var entry := if credit.Applied() && s.ledger == [] then [Entry(s.account, s.amount)] else s.ledger;
      if credit.Reported() || s.ledger != [] then (Approved, entry, s.retries + 1, Some(false))
      else (if complete.Applied() then Completed else Approved, entry, s.retries, Some(complete.NoFault?))
  }

  /** It is what the five steps of the machine leave behind. */
  lemma ApprovalIsASchedule(s: State, fails: bool, update: WriteFault, credit: WriteFault, complete: WriteFault)
    requires s.calls == map[]
    ensures Outcome(s, 0, Alone(0, true, fails, update, credit, complete)) == Approval(s, fails, update, credit, complete)
  {
    RunFive(s, Start(0, true), Read(0, fails), Update(0, update), Credit(0, credit), Complete(0, complete));
    var s2 := Next(Next(s, Start(0, true)), Read(0, fails));
    if fails || s.status != Pending {
      assert s2.calls[0].pc == Returned(false);
    } else {
      assert s2.calls[0].pc == Updating;
      var s3 := Next(s2, Update(0, update));
      if update.NoFault? {
        assert s3.calls[0].pc == Crediting;
        assert Next(s3, Credit(0, credit)).calls[0].pc in {Completing, Returned(false)};
      } else {
        assert s3.calls[0].pc == Returned(false);
      }
    }
  }

  /** A Reject left alone rejects a pending refund exactly when its update takes effect, says so
      exactly when nothing failed, and never touches the ledger or the retries. */
  lemma RejectIsASchedule(s: State, fails: bool, update: WriteFault)
    requires s.calls == map[]
    ensures var (status, ledger, retries, answer) := Outcome(s, 0, Alone(0, false, fails, update, NoFault, NoFault));
      && ledger == s.ledger && retries == s.retries
      && status == (if !fails && s.status.Pending? && update.Applied() then Rejected else s.status)
      && answer == Some(!fails && s.status.Pending? && update.NoFault?)
  {
    RunFive(s, Start(0, false), Read(0, fails), Update(0, update), Credit(0, NoFault), Complete(0, NoFault));
    var s2 := Next(Next(s, Start(0, false)), Read(0, fails));
    if fails || s.status != Pending {
      assert s2.calls[0].pc == Returned(false);
    } else {
      assert s2.calls[0].pc == Updating;
      assert Next(s2, Update(0, update)).calls[0].pc == Returned(update.NoFault?);
    }
  }

  /** The service as written, for a call nothing interrupts; `fails` is a lookup that errs
      or finds no refund. */
  class RefundService {
    const account: int
    const amount: int
    var status: Status
    var ledger: seq<Entry>
    var retries: nat

    constructor (account: int, amount: int)
      ensures this.account == account && this.amount == amount && status == Pending && ledger == [] && retries == 0
    {
      this.account, this.amount, status, ledger, retries := account, amount, Pending, [], 0;
    }

    ghost function View(): State
      reads this
    {
      State(account, amount, status, [], ledger, map[], Nobody, retries)
    }

    method UpdateStatus(from: Status, to: Status, fault: WriteFault) returns (ok: bool)
      modifies this`status
      ensures status == if fault.Applied() && old(status) == from then to else old(status)
      ensures ok == (fault.NoFault? && old(status) == from)
    {
      if fault.FailedBefore? { return false; }
      var rows := 0;
      if status == from { status, rows := to, 1; }
      ok := fault.NoFault? && rows != 0;
    }

    method CreditWallet(fault: WriteFault) returns (ok: bool)
      modifies this`ledger
      ensures ledger == if fault.Applied() && old(ledger) == [] then [Entry(account, amount)] else old(ledger)
      ensures ok == (fault.NoFault? && old(ledger) == [])
    {
      if fault.FailedBefore? || ledger != [] { return false; }
      ledger := [Entry(account, amount)];
      ok := fault.NoFault?;
    }

    /** Run alone, Approve does what the machine's five steps do. */
    method Approve(fails: bool, update: WriteFault, credit: WriteFault, complete: WriteFault) returns (ok: bool)
      modifies this
      ensures Outcome(old(View()), 0, Alone(0, true, fails, update, credit, complete)) == (status, ledger, retries, Some(ok))
    {
      ApprovalIsASchedule(View(), fails, update, credit, complete);
      if fails || status != Pending { return false; }
      ok := UpdateStatus(Pending, Approved, update);
      if !ok { return; }
      ok := CreditWallet(credit);
      if !ok {
        retries := retries + 1;
        return;
      }
      if complete.Applied() { status := Completed; }
      ok := complete.NoFault?;
    }

    /** Run alone, Reject does what the machine's steps do: the row is rejected and nothing else moves. */
    method Reject(fails: bool, update: WriteFault) returns (ok: bool)
      modifies this`status
      ensures status == if !fails && old(status).Pending? && update.Applied() then Rejected else old(status)
      ensures ok == (!fails && old(status).Pending? && update.NoFault?)
      ensures Outcome(old(View()), 0, Alone(0, false, fails, update, NoFault, NoFault)) == (status, ledger, retries, Some(ok))
    {
      RejectIsASchedule(View(), fails, update);
      if fails || status != Pending { return false; }
      ok := UpdateStatus(Pending, Rejected, update);
    }
  }
}