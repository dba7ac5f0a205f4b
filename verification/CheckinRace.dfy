/** One account on one day, under any number of concurrent DoCheckin calls. */
module CheckinRace {
  import opened Prelude
  import opened Checkin
  import opened CheckinService

  datatype Pc = Counting | Inserting(streak: nat) | Crediting(streak: nat) | Returned(result: Result)

  /** The error at which the caller whose insert made the row gave up. */
  datatype Blame = Nobody | InsertReplyLost | CreditFailed(applied: bool)

  datatype State = State(row: Option<real>, credits: seq<real>, calls: map<nat, Pc>, blame: Blame)

  datatype Step =
    | Call(t: nat)
    | Count(t: nat, run: nat, fails: bool)
    | Insert(t: nat, fault: WriteFault)
    | Credit(t: nat, fault: WriteFault)

  function Goto(s: State, t: nat, pc: Pc): State { s.(calls := s.calls[t := pc]) }

  function Next(s: State, st: Step): State {
    match st
    case Call(t) => if t in s.calls then s else Goto(s, t, Counting)
    case Count(t, run, fails) =>
      if t !in s.calls || !s.calls[t].Counting? || run > LOOK_BACK then s
      else Goto(s, t, if fails then Returned(Failed) else Inserting(run + 1))
    case Insert(t, fault) =>
      if t !in s.calls || !s.calls[t].Inserting? then s
      else if fault.FailedBefore? then Goto(s, t, Returned(Failed))
      else if s.row.Some? then Goto(s, t, Returned(if fault.ReplyLost? then Failed else AlreadyToday))
      else
        var s' := s.(row := Some(Reward(s.calls[t].streak)));
        if fault.ReplyLost? then Goto(s'.(blame := InsertReplyLost), t, Returned(Failed))
        else Goto(s', t, Crediting(s.calls[t].streak))
    case Credit(t, fault) =>
      if t !in s.calls || !s.calls[t].Crediting? then s
      else
        var reward := Reward(s.calls[t].streak);
        var s' := if fault.Applied() then s.(credits := s.credits + [reward]) else s;
        if fault.NoFault? then Goto(s', t, Returned(Rewarded(s.calls[t].streak, reward)))
        else Goto(s'.(blame := CreditFailed(fault.Applied())), t, Returned(Failed))
  }

  function RunAll(s: State, steps: seq<Step>): State
    decreases |steps|
  {
    if steps == [] then s else RunAll(Next(s, steps[0]), steps[1..])
  }

  ghost predicate Init(s: State) { s.row.None? && s.credits == [] && s.calls == map[] && s.blame == Nobody }

  /** An error that left the day without its credit. */
  predicate Blamed(b: Blame) { b == InsertReplyLost || b == CreditFailed(false) }

  /** The caller whose insert made the row. */
  predicate Won(pc: Pc) { pc.Crediting? || (pc.Returned? && pc.result.Rewarded?) }

  ghost predicate CallOk(pc: Pc, s: State) {
    && (pc.Inserting? || pc.Crediting? ==> 1 <= pc.streak <= LOOK_BACK + 1)
    && (pc.Crediting? ==> s.row == Some(Reward(pc.streak)) && s.credits == [] && s.blame == Nobody)
    && (pc.Returned? && pc.result.Rewarded? ==> s.credits == [pc.result.reward] && s.blame == Nobody)
    && (pc.Returned? && pc.result.AlreadyToday? ==> s.row.Some?)
  }

  ghost predicate Inv(s: State) {
    && (s.row.Some? ==> exists n :: 1 <= n <= LOOK_BACK + 1 && s.row.value == Reward(n))
    && (s.credits == [] || (s.row.Some? && s.credits == [s.row.value]))
    && (s.row.None? ==> s.blame == Nobody)
    && (Blamed(s.blame) ==> s.credits == [])
    && (s.blame == CreditFailed(true) ==> s.credits != [])
    && (forall t :: t in s.calls ==> CallOk(s.calls[t], s))
    && (forall t, u :: t in s.calls && u in s.calls && Won(s.calls[t]) && Won(s.calls[u]) ==> t == u)
    && (s.row.Some? && s.blame == Nobody ==> exists t :: t in s.calls && Won(s.calls[t]))
  }

  lemma QuietKeepsInv(s: State, t: nat, pc: Pc)
    requires Inv(s) && CallOk(pc, s) && !Won(pc) && (t in s.calls ==> !Won(s.calls[t]))
    ensures Inv(Goto(s, t, pc))
  {
    var s' := Goto(s, t, pc);
    if s.row.Some? && s.blame == Nobody {
      var u :| u in s.calls && Won(s.calls[u]);
      assert u in s'.calls && Won(s'.calls[u]);
    }
    forall u | u in s'.calls ensures CallOk(s'.calls[u], s') {
      if u != t { assert CallOk(s.calls[u], s); }
    }
  }

  lemma InsertKeepsInv(s: State, t: nat, fault: WriteFault)
    requires Inv(s) && t in s.calls && s.calls[t].Inserting? && fault.Applied() && s.row.None?
    ensures Inv(Next(s, Insert(t, fault)))
  {
    var s' := Next(s, Insert(t, fault));
    assert CallOk(s.calls[t], s);
    var n := s.calls[t].streak;
    assert s'.row.value == Reward(n);
    forall u | u in s'.calls ensures CallOk(s'.calls[u], s') && (Won(s'.calls[u]) ==> u == t) {
      assert CallOk(s.calls[u], s);
    }
    if fault.NoFault? { assert Won(s'.calls[t]); }
  }

  lemma CreditKeepsInv(s: State, t: nat, fault: WriteFault)
    requires Inv(s) && t in s.calls && s.calls[t].Crediting?
    ensures Inv(Next(s, Credit(t, fault)))
  {
    var s' := Next(s, Credit(t, fault));
    assert CallOk(s.calls[t], s);
    forall u | u in s'.calls ensures CallOk(s'.calls[u], s') && (Won(s'.calls[u]) ==> u == t) {
      assert CallOk(s.calls[u], s);
      assert u != t ==> !Won(s.calls[u]);
    }
    if fault.NoFault? { assert Won(s'.calls[t]); }
  }

  lemma StepKeepsInv(s: State, st: Step)
    requires Inv(s)
    ensures Inv(Next(s, st))
  {
    if st.Call? {
      if st.t !in s.calls { QuietKeepsInv(s, st.t, Counting); }
    } else if st.t in s.calls {
      assert CallOk(s.calls[st.t], s);
      if st.Count? && s.calls[st.t].Counting? && st.run <= LOOK_BACK {
        QuietKeepsInv(s, st.t, if st.fails then Returned(Failed) else Inserting(st.run + 1));
      } else if st.Insert? && s.calls[st.t].Inserting? {
        if st.fault.Applied() && s.row.None? {
          InsertKeepsInv(s, st.t, st.fault);
        } else {
          QuietKeepsInv(s, st.t, Returned(if st.fault.NoFault? then AlreadyToday else Failed));
        }
      } else if st.Credit? && s.calls[st.t].Crediting? {
        CreditKeepsInv(s, st.t, st.fault);
      }
    }
  }

  lemma {:induction false} RunKeepsInv(s: State, steps: seq<Step>)
    requires Inv(s)
    ensures Inv(RunAll(s, steps))
    decreases |steps|
  {
    if steps != [] {
      StepKeepsInv(s, steps[0]);
      RunKeepsInv(Next(s, steps[0]), steps[1..]);
    }
  }

  ghost predicate Reachable(s: State) {
    exists start: State, steps: seq<Step> :: Init(start) && s == RunAll(start, steps)
  }

  /** However many callers race, the day is credited at most once, with the reward its row
      records, between 0.10 and 0.50625; at most one caller is told of a reward, and it is
      the one that was credited. */
  lemma OneRewardADay(s: State, t: nat, u: nat)
    requires Reachable(s)
    ensures |s.credits| <= 1
    ensures s.credits != [] ==> s.row == Some(s.credits[0]) && BASE_REWARD <= s.credits[0] <= 0.50625
    ensures t in s.calls && s.calls[t].Returned? && s.calls[t].result.Rewarded? ==> s.credits == [s.calls[t].result.reward]
    ensures t in s.calls && u in s.calls && Won(s.calls[t]) && Won(s.calls[u]) ==> t == u
  {
    var start: State, steps: seq<Step> :| Init(start) && s == RunAll(start, steps);
    RunKeepsInv(start, steps);
    if s.credits != [] {
      var n :| 1 <= n <= LOOK_BACK + 1 && s.row.value == Reward(n);
      CapIsOutOfReach(n);
      CapIff(n);
    }
    assert t in s.calls ==> CallOk(s.calls[t], s);
  }

  /** When all callers have returned, a day is taken but not credited exactly when the
      insert's reply was lost or the credit failed without effect. */
  lemma UncreditedDayIff(s: State)
    requires Reachable(s) && (forall t :: t in s.calls ==> s.calls[t].Returned?)
    ensures s.row.Some? && s.credits == [] <==> Blamed(s.blame)
  {
    var start: State, steps: seq<Step> :| Init(start) && s == RunAll(start, steps);
    RunKeepsInv(start, steps);
    forall t | t in s.calls && Won(s.calls[t]) ensures s.blame != Nobody || s.credits != [] {
      assert CallOk(s.calls[t], s);
    }
  }

  /** A caller that nothing interrupts: the row, the credit, the answer and the error it leaves. */
  lemma CallerAlone(s: State, t: nat, run: nat, fails: bool, insert: WriteFault, credit: WriteFault)
    requires t !in s.calls && run <= 30
    ensures var s' := Next(Next(Next(Next(s, Call(t)), Count(t, run, fails)), Insert(t, insert)), Credit(t, credit));
      var reward := Reward(run + 1);
      var makes := !fails && s.row.None? && insert.Applied();
      && s'.row == (if makes then Some(reward) else s.row)
      && s'.credits == (if makes && insert.NoFault? && credit.Applied() then s.credits + [reward] else s.credits)
      && s'.calls == s.calls[t := Returned(
           if fails || insert.Reported() then Failed
           else if s.row.Some? then AlreadyToday
           else if credit.Reported() then Failed
           else Rewarded(run + 1, reward))]
      && s'.blame == (if makes && insert.ReplyLost? then InsertReplyLost
                      else if makes && credit.Reported() then CreditFailed(credit.Applied())
                      else s.blame)
  {
    var s1 := Next(s, Call(t));
    var s2 := Next(s1, Count(t, run, fails));
    var s3 := Next(s2, Insert(t, insert));
    assert s2.calls[t] == (if fails then Returned(Failed) else Inserting(run + 1));
    if fails { assert s3 == s2; }
    assert s3.calls == s.calls[t := s3.calls[t]];
    if !s3.calls[t].Crediting? { assert Next(s3, Credit(t, credit)) == s3; }
  }

  /** Such a day stays uncredited: every later caller finds the row taken. */
  lemma {:induction false} LostForGood(s: State, steps: seq<Step>)
    requires Inv(s) && s.row.Some? && s.blame != Nobody
    ensures RunAll(s, steps).credits == s.credits && RunAll(s, steps).row == s.row
    decreases |steps|
  {
    if steps != [] {
      assert steps[0].t in s.calls ==> CallOk(s.calls[steps[0].t], s);
      StepKeepsInv(s, steps[0]);
      LostForGood(Next(s, steps[0]), steps[1..]);
    }
  }
}
