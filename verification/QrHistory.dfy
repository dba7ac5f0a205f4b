/** What the answers of confirmers and pollers say about the steps that led to them. */
module QrHistory {
  import opened Prelude
  import opened QrScripts
  import opened QrProtocol
  import opened QrProtocolProofs
  import opened QrTheorems

  predicate ByConfirmerOf(st: Step, c: nat) {
    match st
    case ConfirmArrive(d, _) => d == c
    case ConfirmRead(d, _, _) => d == c
    case ConfirmCas(d, _, _) => d == c
    case ConfirmGate(d, _) => d == c
    case EffectReturn(d, _) => d == c
    case Publish(d, _) => d == c
    case _ => false
  }

  /** The request was read with a matching signature (v1 requests carry none). */
  ghost predicate Signed(ver: Version, steps: seq<Step>, c: nat) {
    ver == V1 || ConfirmRead(c, false, true) in steps
  }

  /** A request that has not got past its checks. */
  predicate TurnedAway(k: Confirmer) {
    || (k.pc.Reading? && k.replies == [])
    || (k.pc.Answered? && (k.replies == [LoadFailed] || k.replies == [KeyMissing] || k.replies == [BadSignature]))
  }

  /** Everything past a check has passed it, and every answer has its cause among the steps. */
  ghost predicate Explained(s: State, steps: seq<Step>, c: nat, k: Confirmer) {
    && (Signed(s.ver, steps, c) || TurnedAway(k))
    && (k.pc.InEffect? ==> ConfirmGate(c, true) in steps && s.entry.session.action != Login)
    && (k.replies == [Accepted] ==> s.entry.session.action == Login || EffectReturn(c, true) in steps)
    && (k.replies == [EffectFailed] ==> EffectReturn(c, false) in steps)
    && (k.replies == [Refused] ==> ConfirmGate(c, false) in steps && s.entry.session.action != Login)
    && (k.replies == [Accepted] || k.replies == [EffectFailed] ==>
          s.entry.session.action == Login || ConfirmGate(c, true) in steps)
  }

  ghost predicate History(s: State, steps: seq<Step>) {
    && (forall c :: c in s.confirmers ==> Explained(s, steps, c, s.confirmers[c]))
    && (forall w :: w in s.log.wins ==> Signed(s.ver, steps, w.confirmer))
    && (s.log.effects != [] ==> s.log.wins != [] && ConfirmGate(s.log.wins[0].confirmer, true) in steps)
  }

  lemma MoreStepsExplain(s: State, s': State, steps: seq<Step>, st: Step, c: nat, k: Confirmer)
    requires Explained(s, steps, c, k) && s'.ver == s.ver && s'.entry.session.action == s.entry.session.action
    ensures Explained(s', steps + [st], c, k)
  {
  }

  /** A confirmer's own step, with the request's answer, if it gives one, as its only one. */
  lemma StepIsExplained(s: State, steps: seq<Step>, st: Step, c: nat)
    requires Inv(s) && c in s.confirmers && Explained(s, steps, c, s.confirmers[c]) && ByConfirmerOf(st, c)
    ensures c in Next(s, st).confirmers && Explained(Next(s, st), steps + [st], c, Next(s, st).confirmers[c])
  {
    var k := s.confirmers[c];
    assert st in steps + [st];
    assert ConfirmerOk(c, k, s.log);
    MoreStepsExplain(s, s, steps, st, c, k);
    if !k.pc.Publishing? && !k.pc.Answered? { assert k.replies == []; }
    match st
    case ConfirmArrive(_, _) =>
    case ConfirmRead(_, fails, sigOk) => ReadIsExplained(s, steps, c, fails, sigOk);
    case ConfirmCas(_, fault, ttl) => CasIsExplained(s, steps, c, fault, ttl);
    case ConfirmGate(_, passes) => GateIsExplained(s, steps, c, passes);
    case EffectReturn(_, ok) => ReturnIsExplained(s, steps, c, ok);
    case Publish(_, _) => MoreStepsExplain(s, Next(s, st), steps, st, c, k);
  }

  lemma ReadIsExplained(s: State, steps: seq<Step>, c: nat, fails: bool, sigOk: bool)
    requires c in s.confirmers && Explained(s, steps, c, s.confirmers[c])
    requires s.confirmers[c].pc.Reading? ==> s.confirmers[c].replies == []
    ensures var s' := ReadConfirmer(s, c, fails, sigOk);
            c in s'.confirmers && Explained(s', steps + [ConfirmRead(c, fails, sigOk)], c, s'.confirmers[c])
  {
    var s' := ReadConfirmer(s, c, fails, sigOk);
    assert ConfirmRead(c, fails, sigOk) in steps + [ConfirmRead(c, fails, sigOk)];
    MoreStepsExplain(s, s', steps, ConfirmRead(c, fails, sigOk), c, s.confirmers[c]);
    forall r: ConfirmReply ensures [] + [r] == [r] {}
  }

  lemma CasIsExplained(s: State, steps: seq<Step>, c: nat, fault: WriteFault, ttl: nat)
    requires c in s.confirmers && Explained(s, steps, c, s.confirmers[c])
    requires s.confirmers[c].pc.Deciding? ==> s.confirmers[c].replies == []
    ensures var s' := CasConfirmer(s, c, fault, ttl);
            c in s'.confirmers && Explained(s', steps + [ConfirmCas(c, fault, ttl)], c, s'.confirmers[c])
  {
    var s' := CasConfirmer(s, c, fault, ttl);
    MoreStepsExplain(s, s', steps, ConfirmCas(c, fault, ttl), c, s.confirmers[c]);
    forall r: ConfirmReply ensures [] + [r] == [r] {}
  }

  lemma GateIsExplained(s: State, steps: seq<Step>, c: nat, passes: bool)
    requires c in s.confirmers && Explained(s, steps, c, s.confirmers[c])
    requires s.confirmers[c].pc.Won? ==> s.confirmers[c].replies == []
    ensures var s' := GateConfirmer(s, c, passes);
            c in s'.confirmers && Explained(s', steps + [ConfirmGate(c, passes)], c, s'.confirmers[c])
  {
    var s' := GateConfirmer(s, c, passes);
    assert ConfirmGate(c, passes) in steps + [ConfirmGate(c, passes)];
    MoreStepsExplain(s, s', steps, ConfirmGate(c, passes), c, s.confirmers[c]);
    forall r: ConfirmReply ensures [] + [r] == [r] {}
  }

  lemma ReturnIsExplained(s: State, steps: seq<Step>, c: nat, ok: bool)
    requires c in s.confirmers && Explained(s, steps, c, s.confirmers[c])
    requires s.confirmers[c].pc.InEffect? ==> s.confirmers[c].replies == []
    ensures var s' := EffectReturned(s, c, ok);
            c in s'.confirmers && Explained(s', steps + [EffectReturn(c, ok)], c, s'.confirmers[c])
  {
    var s' := EffectReturned(s, c, ok);
    assert EffectReturn(c, ok) in steps + [EffectReturn(c, ok)];
    MoreStepsExplain(s, s', steps, EffectReturn(c, ok), c, s.confirmers[c]);
    forall r: ConfirmReply ensures [] + [r] == [r] {}
  }

  lemma StandsStill(s: State, st: Step, c: nat)
    requires !ByConfirmerOf(st, c)
    ensures Next(s, st).ver == s.ver && Next(s, st).entry.session.action == s.entry.session.action
    ensures c in Next(s, st).confirmers <==> c in s.confirmers
    ensures c in s.confirmers ==> Next(s, st).confirmers[c] == s.confirmers[c]
  {
    if !ByConfirmer(st) { PollersDoNotDisturb(s, st); }
  }

  /** The log grows by a confirmer's script and by its gate alone. */
  lemma LogGrows(s: State, st: Step)
    requires ByConfirmer(st) && st.c in s.confirmers
    ensures var s' := Next(s, st);
      && (forall w :: w in s'.log.wins ==> w in s.log.wins || (st.ConfirmCas? && w.confirmer == st.c && s.confirmers[st.c].pc.Deciding?))
      && (s'.log.effects == s.log.effects || (st == ConfirmGate(st.c, true) && s.confirmers[st.c].pc.Won?))
      && (s.log.wins != [] ==> s'.log.wins != [] && s'.log.wins[0] == s.log.wins[0])
  {
  }

  lemma LogIsExplained(s: State, steps: seq<Step>, st: Step)
    requires Inv(s) && History(s, steps)
    ensures var s' := Next(s, st);
      && (forall w :: w in s'.log.wins ==> Signed(s'.ver, steps + [st], w.confirmer))
      && (s'.log.effects != [] ==> s'.log.wins != [] && ConfirmGate(s'.log.wins[0].confirmer, true) in steps + [st])
  {
    assert st in steps + [st];
    if !ByConfirmer(st) {
      PollersDoNotDisturb(s, st);
    } else if st.c in s.confirmers {
      assert ConfirmerOk(st.c, s.confirmers[st.c], s.log);
      assert Explained(s, steps, st.c, s.confirmers[st.c]);
      LogGrows(s, st);
      VersionStays(s, st);
    }
  }

  lemma HistoryStep(s: State, steps: seq<Step>, st: Step)
    requires Inv(s) && History(s, steps)
    ensures History(Next(s, st), steps + [st])
  {
    var s' := Next(s, st);
    LogIsExplained(s, steps, st);
    forall c | c in s'.confirmers ensures Explained(s', steps + [st], c, s'.confirmers[c]) {
      if !ByConfirmerOf(st, c) {
        StandsStill(s, st, c);
        MoreStepsExplain(s, s', steps, st, c, s.confirmers[c]);
      } else if c in s.confirmers {
        StepIsExplained(s, steps, st, c);
      }
    }
  }

  lemma {:induction false} RunHasHistory(start: State, steps: seq<Step>)
    requires Init(start)
    ensures History(Run(start, steps), steps) && Inv(Run(start, steps)) && Run(start, steps).ver == start.ver
    decreases |steps|
  {
    RunKeepsInv(start, steps);
    if steps != [] {
      var rest, st := steps[..|steps| - 1], steps[|steps| - 1];
      assert steps == rest + [st];
      RunHasHistory(start, rest);
      RunSnoc(start, rest, st);
      HistoryStep(Run(start, rest), rest, st);
      VersionStays(Run(start, rest), st);
    }
  }

  lemma VersionStays(s: State, st: Step)
    ensures Next(s, st).ver == s.ver
  {
    if !ByConfirmer(st) {
      PollersDoNotDisturb(s, st);
    }
  }

  /** On every v2 run, a confirm none of whose reads found a matching signature ends in
      LoadFailed, KeyMissing or BadSignature; it never wins, and no side effect is its own. */
  lemma OnlySignedRequestsConfirm(start: State, steps: seq<Step>, c: nat)
    requires Init(start) && start.ver == V2 && ConfirmRead(c, false, true) !in steps
    ensures var s := Run(start, steps);
      && (c in s.confirmers ==> TurnedAway(s.confirmers[c]))
      && (forall w :: w in s.log.wins ==> w.confirmer != c)
      && (s.log.effects != [] ==> s.log.wins != [] && s.log.wins[0].confirmer != c)
  {
    RunHasHistory(start, steps);
    var s := Run(start, steps);
    assert c in s.confirmers ==> Explained(s, steps, c, s.confirmers[c]);
    assert s.log.effects != [] ==> s.log.wins[0] in s.log.wins;
  }

  /** ... and no step of its own touches the session, the pollers or the log. */
  lemma UnsignedRequestsChangeNothing(start: State, steps: seq<Step>, st: Step, c: nat)
    requires Init(start) && start.ver == V2 && ByConfirmerOf(st, c) && ConfirmRead(c, false, true) !in steps + [st]
    ensures var s := Run(start, steps);
      Next(s, st) == s.(confirmers := Next(s, st).confirmers)
  {
    assert st in steps + [st] && forall x :: x in steps ==> x in steps + [st];
    OnlySignedRequestsConfirm(start, steps, c);
  }

  /** A live session answers a mismatch with BadSignature, whatever its status. */
  lemma MismatchIsRefused(s: State, c: nat)
    requires s.ver == V2 && c in s.confirmers && s.confirmers[c].pc.Reading? && s.confirmers[c].replies == [] && s.entry.Live(s.now)
    ensures Next(s, ConfirmRead(c, false, false)) ==
            s.(confirmers := s.confirmers[c := Confirmer(Answered, s.confirmers[c].account, [BadSignature])])
  {
    assert [] + [BadSignature] == [BadSignature];
  }

  /** The answers about the side effect: accepted only if it was called and succeeded,
      failed only if it was called and failed, refused only if its checks refused it, in
      which case it is never called; and it is called only past those checks. */
  lemma AnswersHaveCauses(start: State, steps: seq<Step>, c: nat)
    requires Init(start) && c in Run(start, steps).confirmers && start.entry.session.action != Login
    ensures var s, replies := Run(start, steps), Run(start, steps).confirmers[c].replies;
      && (replies == [Accepted] ==> ConfirmGate(c, true) in steps && EffectReturn(c, true) in steps)
      && (replies == [EffectFailed] ==> ConfirmGate(c, true) in steps && EffectReturn(c, false) in steps)
      && (replies == [Refused] ==> ConfirmGate(c, false) in steps)
      && (s.log.effects != [] ==> s.log.wins != [] && ConfirmGate(s.log.wins[0].confirmer, true) in steps)
  {
    RunHasHistory(start, steps);
    ActionStays(start, steps);
    assert Explained(Run(start, steps), steps, c, Run(start, steps).confirmers[c]);
  }

  lemma ActionStaysStep(s: State, st: Step)
    ensures Next(s, st).entry.session.action == s.entry.session.action
  {
    if !ByConfirmer(st) { PollersDoNotDisturb(s, st); }
  }

  lemma {:induction false} ActionStays(s: State, steps: seq<Step>)
    ensures Run(s, steps).entry.session.action == s.entry.session.action
    decreases |steps|
  {
    if steps != [] {
      ActionStaysStep(s, steps[0]);
      ActionStays(Next(s, steps[0]), steps[1..]);
    }
  }

  // ---- Pollers ----

  /** Some consume step of poller p had this outcome. */
  ghost predicate Consumed(steps: seq<Step>, p: nat, reported: bool, signs: bool) {
    exists st :: st in steps && st.PollConsume? && st.p == p && st.fault.Reported() == reported && (reported || st.signs == signs)
  }

  ghost predicate AnswerExplained(q: Poller, now: nat, steps: seq<Step>, p: nat) {
    && (q.responses == [ReadFailed] ==> PollRead(p, true) in steps)
    && (q.responses == [StillPending] ==> q.deadline <= now || PollCancel(p) in steps)
    && (q.responses == [ConsumeFailed] ==> Consumed(steps, p, true, true))
    && (q.responses == [TokenFailed] ==> Consumed(steps, p, false, false))
    && (q.responses != [] && q.responses[0].Token? ==> Consumed(steps, p, false, true))
  }

  lemma MoreStepsConsume(steps: seq<Step>, st: Step, p: nat, reported: bool, signs: bool)
    requires Consumed(steps, p, reported, signs)
    ensures Consumed(steps + [st], p, reported, signs)
  {
    var x :| x in steps && x.PollConsume? && x.p == p && x.fault.Reported() == reported && (reported || x.signs == signs);
    assert x in steps + [st];
  }

  lemma MoreStepsAnswer(q: Poller, q': Poller, now: nat, later: nat, steps: seq<Step>, st: Step, p: nat)
    requires AnswerExplained(q, now, steps, p) && now <= later && q'.responses == q.responses && q'.deadline == q.deadline
    ensures AnswerExplained(q', later, steps + [st], p)
  {
    if Consumed(steps, p, true, true) { MoreStepsConsume(steps, st, p, true, true); }
    if Consumed(steps, p, false, false) { MoreStepsConsume(steps, st, p, false, false); }
    if Consumed(steps, p, false, true) { MoreStepsConsume(steps, st, p, false, true); }
  }

  lemma ConfirmersLeaveAnswers(s: State, st: Step, p: nat)
    requires p in s.pollers && ByConfirmer(st)
    ensures var s' := Next(s, st);
      p in s'.pollers && s'.pollers[p].responses == s.pollers[p].responses && s'.pollers[p].deadline == s.pollers[p].deadline
  {
  }

  lemma OthersLeaveAnswers(s: State, st: Step, p: nat)
    requires p in s.pollers && !ByPoller(st, p)
    ensures var s' := Next(s, st);
      p in s'.pollers && s'.pollers[p].responses == s.pollers[p].responses && s'.pollers[p].deadline == s.pollers[p].deadline
  {
    if ByConfirmer(st) { ConfirmersLeaveAnswers(s, st, p); }
  }

  lemma ConsumeIsExplained(s: State, steps: seq<Step>, p: nat, fault: WriteFault, ttl: nat, signs: bool)
    requires p in s.pollers && s.pollers[p].responses == []
    ensures var s' := ConsumePoller(s, p, fault, ttl, signs);
      p in s'.pollers && AnswerExplained(s'.pollers[p], s'.now, steps + [PollConsume(p, fault, ttl, signs)], p)
  {
    var st := PollConsume(p, fault, ttl, signs);
    assert st in steps + [st];
    assert Consumed(steps + [st], p, fault.Reported(), signs || fault.Reported());
    var s' := ConsumePoller(s, p, fault, ttl, signs);
    assert s'.pollers[p].responses == [] || (|s'.pollers[p].responses| == 1 && s'.pollers[p].responses[0] != StillPending && s'.pollers[p].responses[0] != ReadFailed);
  }

  lemma OneAnswer(q: Poller, r: Response, now: nat, steps: seq<Step>, p: nat)
    requires q.responses == [r]
    requires r != ConsumeFailed && r != TokenFailed && !r.Token?
    requires (r == ReadFailed ==> PollRead(p, true) in steps) && (r == StillPending ==> q.deadline <= now)
    ensures AnswerExplained(q, now, steps, p)
  {
  }

  lemma ReadingIsExplained(s: State, steps: seq<Step>, p: nat, fails: bool)
    requires p in s.pollers && s.pollers[p].responses == []
    ensures var s' := ReadPoller(s, p, fails);
      p in s'.pollers && AnswerExplained(s'.pollers[p], s'.now, steps + [PollRead(p, fails)], p)
  {
    var s', done := ReadPoller(s, p, fails), steps + [PollRead(p, fails)];
    assert PollRead(p, fails) in done;
    if s'.pollers[p].responses != [] {
      var r := s'.pollers[p].responses[0];
      assert s'.pollers[p].responses == [r];
      OneAnswer(s'.pollers[p], r, s'.now, done, p);
    }
  }

  lemma WaitingIsExplained(s: State, steps: seq<Step>, st: Step, p: nat)
    requires p in s.pollers && s.pollers[p].responses == []
    requires ByPoller(st, p) && !st.PollRead? && !st.PollConsume?
    ensures p in Next(s, st).pollers && AnswerExplained(Next(s, st).pollers[p], Next(s, st).now, steps + [st], p)
  {
    assert st in steps + [st];
    assert [] + [StillPending] == [StillPending];
  }

  lemma PollStepIsExplained(s: State, steps: seq<Step>, st: Step, p: nat)
    requires Inv(s) && p in s.pollers && AnswerExplained(s.pollers[p], s.now, steps, p)
    ensures p in Next(s, st).pollers && AnswerExplained(Next(s, st).pollers[p], Next(s, st).now, steps + [st], p)
  {
    var q, s' := s.pollers[p], Next(s, st);
    assert PollerOk(p, q, s.entry.session.action, s.log);
    if !ByPoller(st, p) {
      OthersLeaveAnswers(s, st, p);
      NowGrows(s, st);
      MoreStepsAnswer(q, s'.pollers[p], s.now, s'.now, steps, st, p);
    } else if q.pc.Finished? {
      FinishedStays(s, st, p);
      MoreStepsAnswer(q, q, s.now, s.now, steps, st, p);
    } else if st.PollConsume? {
      ConsumeIsExplained(s, steps, p, st.fault, st.ttl, st.signs);
    } else if st.PollRead? {
      ReadingIsExplained(s, steps, p, st.fails);
    } else {
      WaitingIsExplained(s, steps, st, p);
    }
  }

  lemma FinishedStays(s: State, st: Step, p: nat)
    requires p in s.pollers && s.pollers[p].pc.Finished? && ByPoller(st, p)
    ensures Next(s, st) == s
  {
  }

  lemma NowGrows(s: State, st: Step)
    ensures s.now <= Next(s, st).now
  {
    if ByConfirmer(st) { ConfirmersLeaveTime(s, st); }
  }

  lemma ConfirmersLeaveTime(s: State, st: Step)
    requires ByConfirmer(st)
    ensures Next(s, st).now == s.now
  {
  }

  lemma NewPoller(s: State, steps: seq<Step>, st: Step, p: nat)
    requires p !in s.pollers && p in Next(s, st).pollers
    ensures AnswerExplained(Next(s, st).pollers[p], Next(s, st).now, steps, p)
  {
    if !ByPoller(st, p) { OthersMakeNoPoller(s, st, p); }
  }

  lemma OthersMakeNoPoller(s: State, st: Step, p: nat)
    requires p !in s.pollers && !ByPoller(st, p)
    ensures p !in Next(s, st).pollers
  {
  }

  /** A poller's answers have their causes: a failed read, a request cancelled or a deadline
      passed, a consume script whose reply was an error, a token that could not be signed, a
      token that could. */
  lemma {:induction false} PollAnswersHaveCauses(start: State, steps: seq<Step>, p: nat)
    requires Init(start) && p in Run(start, steps).pollers
    ensures AnswerExplained(Run(start, steps).pollers[p], Run(start, steps).now, steps, p)
    decreases |steps|
  {
    if steps != [] {
      var rest, st := steps[..|steps| - 1], steps[|steps| - 1];
      assert steps == rest + [st];
      RunSnoc(start, rest, st);
      var s := Run(start, rest);
      RunKeepsInv(start, rest);
      if p in s.pollers {
        PollAnswersHaveCauses(start, rest, p);
        PollStepIsExplained(s, rest, st, p);
      } else {
        NewPoller(s, steps, st, p);
      }
    }
  }
}
