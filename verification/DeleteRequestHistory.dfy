/** What the answers of RequestSelfDelete say about its calls, and what each call and each
    claim does when nothing interrupts it. */
module DeleteRequestHistory {
  import opened Prelude
  import opened DeleteRequests
  import opened DeleteRequestProofs
  import opened DeleteRequestTheorems

  predicate AnsweredAny(pc: CallPc) { pc.Returned? && !pc.result.Rejected? }

  predicate PastInsert(pc: CallPc) { pc.Rereading? || (pc.Returned? && (pc.result.Created? || pc.result.AlreadyPending?)) }

  /** The account was found, no lookup failed, the subscriptions allowed it. */
  ghost predicate Allowed(steps: seq<Step>, c: nat) {
    CallLookup(c, true) in steps && CallCheck(c, false) in steps && CallGuard(c, true) in steps
  }

  ghost predicate Explained(pc: CallPc, steps: seq<Step>, c: nat) {
    && (pc.Checking? || pc.Guarding? || pc.Inserting? || pc.Rereading? || AnsweredAny(pc) ==> CallLookup(c, true) in steps)
    && (pc.Guarding? || pc.Inserting? || pc.Rereading? || AnsweredAny(pc) ==> CallCheck(c, false) in steps)
    && (pc.Inserting? || PastInsert(pc) ==> Allowed(steps, c))
    && (pc.Rereading? || (pc.Returned? && pc.result.Created?) ==> CallInsert(c, NoFault) in steps)
  }

  ghost predicate History(s: State, steps: seq<Step>) {
    && (forall c :: c in s.calls ==> Explained(s.calls[c].pc, steps, c))
    && (forall i :: 0 <= i < |s.rows| ==> Allowed(steps, s.rows[i].creator))
  }

  predicate ByCall(st: Step, c: nat) {
    match st
    case CallLookup(d, _) => d == c
    case CallCheck(d, _) => d == c
    case CallGuard(d, _) => d == c
    case CallInsert(d, _) => d == c
    case CallReread(d, _) => d == c
    case _ => false
  }

  lemma CallStepIsExplained(s: State, steps: seq<Step>, st: Step, c: nat)
    requires c in s.calls && Explained(s.calls[c].pc, steps, c) && ByCall(st, c)
    ensures c in Next(s, st).calls && Explained(Next(s, st).calls[c].pc, steps + [st], c)
  {
    assert st in steps + [st];
  }

  lemma OthersStand(s: State, st: Step, c: nat)
    requires c in s.calls && !ByCall(st, c)
    ensures c in Next(s, st).calls && Next(s, st).calls[c] == s.calls[c]
  {
  }

  /** Rows keep their creator, and a new one is the inserting call's. */
  lemma CreatorsStand(s: State, st: Step, i: nat)
    requires i < |Next(s, st).rows|
    ensures i < |s.rows| ==> Next(s, st).rows[i].creator == s.rows[i].creator
    ensures i >= |s.rows| ==>
      st.CallInsert? && st.c in s.calls && s.calls[st.c].pc.Inserting? && Next(s, st).rows[i].creator == st.c
  {
  }

  lemma HistoryStep(s: State, steps: seq<Step>, st: Step)
    requires History(s, steps)
    ensures History(Next(s, st), steps + [st])
  {
    var s' := Next(s, st);
    forall c | c in s'.calls ensures Explained(s'.calls[c].pc, steps + [st], c) {
      if c in s.calls {
        if ByCall(st, c) { CallStepIsExplained(s, steps, st, c); } else { OthersStand(s, st, c); }
      }
    }
    forall i | 0 <= i < |s'.rows| ensures Allowed(steps + [st], s'.rows[i].creator) {
      CreatorsStand(s, st, i);
      if i < |s.rows| { assert Allowed(steps, s.rows[i].creator); } else { assert Explained(s.calls[st.c].pc, steps, st.c); }
    }
  }

  lemma {:induction false} RunSnoc(s: State, steps: seq<Step>, st: Step)
    ensures Run(s, steps + [st]) == Next(Run(s, steps), st)
    decreases |steps|
  {
    if steps == [] {
      assert ([] + [st])[1..] == [];
    } else {
      assert (steps + [st])[1..] == steps[1..] + [st];
      RunSnoc(Next(s, steps[0]), steps[1..], st);
    }
  }

  lemma {:induction false} RunHasHistory(start: State, steps: seq<Step>)
    requires Init(start)
    ensures History(Run(start, steps), steps)
    decreases |steps|
  {
    if steps != [] {
      var rest, st := steps[..|steps| - 1], steps[|steps| - 1];
      assert steps == rest + [st];
      RunHasHistory(start, rest);
      RunSnoc(start, rest, st);
      HistoryStep(Run(start, rest), rest, st);
    }
  }

  /** On every run, a row in the table stands for an account that was found, without a pending
      request at the first look, and whose subscriptions allowed the deletion; and a call that
      reports anything but an error has made the steps that the report needs. */
  lemma OnlyAllowedRequestsAreMade(start: State, steps: seq<Step>, i: nat, c: nat)
    requires Init(start)
    ensures var s := Run(start, steps);
      && (i < |s.rows| ==> Allowed(steps, s.rows[i].creator))
      && (c in s.calls && AnsweredAny(s.calls[c].pc) ==> CallLookup(c, true) in steps && CallCheck(c, false) in steps)
      && (c in s.calls && PastInsert(s.calls[c].pc) ==> Allowed(steps, c))
      && (c in s.calls && s.calls[c].pc.Returned? && s.calls[c].pc.result.Created? ==> CallInsert(c, NoFault) in steps)
  {
    RunHasHistory(start, steps);
    var s := Run(start, steps);
    assert c in s.calls ==> Explained(s.calls[c].pc, steps, c);
  }

  // ---- Calls and claims left alone ----

  /** The answer of a call that nothing interrupts. */
  function AnswerAlone(s: State, account: int, found: bool, checkFails: bool, clear: bool, fault: WriteFault): Result {
    var pending := FindPending(s.rows, account);
    if !found || checkFails then Rejected
    else if pending.Some? then Existing(pending.value)
    else if clear && fault.NoFault? then Created(|s.rows|)
    else Rejected
  }

  /** Left alone, a call answers the pending row if there is one, makes exactly one row, due 30
      days later, if there is none and the account may go, and changes nothing otherwise. */
  lemma RequestAlone(s: State, c: nat, account: int, found: bool, checkFails: bool, clear: bool, fault: WriteFault)
    requires c !in s.calls
    ensures var s4 := Next(Next(Next(Next(s, CallBegin(c, account)), CallLookup(c, found)), CallCheck(c, checkFails)), CallGuard(c, clear));
      var s' := Next(s4, CallInsert(c, fault));
      var makes := found && !checkFails && FindPending(s.rows, account).None? && clear && fault.Applied();
      && c in s'.calls && s'.calls[c].pc.Returned? && s'.calls[c].pc.result == AnswerAlone(s, account, found, checkFails, clear, fault)
      && (if makes
          then |s'.rows| == |s.rows| + 1 && s'.rows[..|s.rows|] == s.rows && s'.rows[|s.rows|].account == account
               && s'.rows[|s.rows|].status == Pending && s'.rows[|s.rows|].creator == c
               && s'.rows[|s.rows|].CoolingOffUntil() == s.now + 30 * 24 * 3600
          else s'.rows == s.rows)
  {
    var s1 := Next(s, CallBegin(c, account));
    var s2 := Next(s1, CallLookup(c, found));
    var s3 := Next(s2, CallCheck(c, checkFails));
    var s4 := Next(s3, CallGuard(c, clear));
    assert s4.rows == s.rows && s4.now == s.now && s4.calls[c].account == account;
    assert s1.calls[c].pc.Looking?;
    if found {
      assert s2.calls[c].pc.Checking?;
      if !checkFails && FindPending(s.rows, account).None? {
        assert s3.calls[c].pc.Guarding?;
        assert clear ==> s4.calls[c].pc.Inserting?;
      } else {
        assert s3.calls[c].pc.Returned? && s4.calls[c].pc == s3.calls[c].pc;
      }
    } else {
      assert s2.calls[c].pc.Returned? && s3.calls[c].pc == s2.calls[c].pc && s4.calls[c].pc == s3.calls[c].pc;
    }
  }

  /** A call whose insert finds another's pending row makes none: it reads again and answers
      that row, or that a request is pending when it cannot find which. */
  lemma LateRequestAlone(s: State, c: nat, fault: WriteFault, rereadFails: bool)
    requires c in s.calls && s.calls[c].pc.Inserting? && FindPending(s.rows, s.calls[c].account).Some?
    ensures var s' := Next(Next(s, CallInsert(c, fault)), CallReread(c, rereadFails));
      && s'.rows == s.rows && c in s'.calls && s'.calls[c].pc.Returned?
      && s'.calls[c].pc.result ==
         (if fault.Reported() then Rejected
          else if rereadFails then AlreadyPending
          else Existing(FindPending(s.rows, s.calls[c].account).value))
  {
    var s1 := Next(s, CallInsert(c, fault));
    assert s1.calls[c].pc.Rereading? <==> fault.NoFault?;
  }

  /** A claim that takes effect moves exactly its rows to processing, stamps them with the time
      and queues them, unless its reply is lost: then no worker has them. */
  lemma ClaimTakes(s: State, n: nat, ids: seq<nat>, fault: WriteFault)
    requires Reachable(s) && (n in s.workers ==> s.workers[n].queue == []) && Claimable(s, ids) && fault.Applied()
    ensures var s' := Next(s, Claim(n, ids, fault));
      && |s'.rows| == |s.rows|
      && (forall i :: 0 <= i < |s.rows| ==>
            if i in ids then s'.rows[i].status == Processing && s'.rows[i].claims == [s.now] && s'.rows[i].cascades == 0
            else s'.rows[i] == s.rows[i])
      && n in s'.workers && s'.workers[n].queue == (if fault.NoFault? then ids else [])
  {
    ReachableHasInv(s);
    var s' := Next(s, Claim(n, ids, fault));
    forall i | 0 <= i < |s.rows| && i in ids ensures s'.rows[i].claims == [s.now] && s'.rows[i].status == Processing && s'.rows[i].cascades == 0 {
      assert RowOk(s.rows[i], s.now, s.step);
      var k :| 0 <= k < |ids| && ids[k] == i;
      assert Eligible(s.rows[ids[k]], s.now);
    }
  }

  /** A cancellation stops exactly a pending request, and no worker ever claims that one. */
  lemma CancelStopsPending(s: State, i: nat, steps: seq<Step>)
    requires Reachable(s) && i < |s.rows| && s.rows[i].status == Pending
    ensures var s' := Run(Next(s, Cancel(i)), steps);
      i < |s'.rows| && s'.rows[i].status == Cancelled && s'.rows[i].claims == [] && s'.rows[i].cascades == 0
  {
    ReachableHasInv(s);
    assert RowOk(s.rows[i], s.now, s.step);
    var s1 := Next(s, Cancel(i));
    assert s1.rows[i].status == Cancelled && s1.rows[i].trail == [Pending, Cancelled];
    StepKeepsInv(s, Cancel(i));
    RowsPersist(s1, steps, i);
    RunKeepsInv(s1, steps);
    var r := Run(s1, steps).rows[i];
    assert RowOk(r, Run(s1, steps).now, Run(s1, steps).step);
    assert r.trail[..2] == [Pending, Cancelled];
    assert r.trail[1] == r.trail[..2][1];
  }
}
