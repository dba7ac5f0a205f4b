/** The promises of the QR session protocol, over every reachable state of both versions. */
module QrTheorems {
  import opened Prelude
  import opened QrScripts
  import opened QrProtocol
  import opened QrProtocolProofs

  ghost predicate Reachable(s: State) {
    exists start: State, steps: seq<Step> :: Init(start) && s == Run(start, steps)
  }

  lemma ReachableHasInv(s: State)
    requires Reachable(s)
    ensures Inv(s)
  {
    var start: State, steps: seq<Step> :| Init(start) && s == Run(start, steps);
    RunKeepsInv(start, steps);
  }

  ghost predicate Grants(r: Response) { r.Token? || r.Reported? }

  /** At most one confirm script and at most one consume script win, in that order;
      at most one login token is issued, and only for the account of the winning confirmer. */
  lemma OneWinnerOneToken(s: State)
    requires Reachable(s)
    ensures |s.log.wins| <= 1 && |s.log.consumes| <= |s.log.wins| && |s.log.tokens| <= |s.log.consumes|
    ensures forall a :: a in s.log.tokens ==> s.entry.session.action == Login && a == s.log.wins[0].account
  {
    ReachableHasInv(s);
  }

  /** A poller that has left wrote exactly one response, one that has not wrote none,
      although the branch taken after a wake-up never looks at writePollResult's verdict. */
  lemma ExactlyOneResponse(s: State, p: nat)
    requires Reachable(s) && p in s.pollers
    ensures |s.pollers[p].responses| == if s.pollers[p].pc.Finished? then 1 else 0
  {
    ReachableHasInv(s);
    assert PollerOk(p, s.pollers[p], s.entry.session.action, s.log);
  }

  /** The grant goes to one poller only, and names the winning confirmer's account
      even though the poller took it from a snapshot older than its consume script. */
  lemma GrantIsTheWinners(s: State, p: nat, q: nat)
    requires Reachable(s) && p in s.pollers && q in s.pollers
    requires s.pollers[p].responses != [] && Grants(s.pollers[p].responses[0])
    ensures |s.log.wins| == 1 && s.pollers[p].responses[0].account == s.log.wins[0].account
    ensures s.pollers[p].responses[0].Token? <==> s.entry.session.action == Login
    ensures q != p && s.pollers[q].responses != [] ==> !Grants(s.pollers[q].responses[0])
  {
    ReachableHasInv(s);
    assert PollerOk(p, s.pollers[p], s.entry.session.action, s.log);
    assert PollerOk(q, s.pollers[q], s.entry.session.action, s.log);
  }

  /** Every confirm request is answered at most once, and only the winner of the
      script is told that it was accepted. */
  lemma ConfirmAnswers(s: State, c: nat)
    requires Reachable(s) && c in s.confirmers
    ensures |s.confirmers[c].replies| <= 1
    ensures s.confirmers[c].pc.Answered? ==> |s.confirmers[c].replies| == 1
    ensures s.confirmers[c].replies == [Accepted] ==> |s.log.wins| == 1 && s.log.wins[0].confirmer == c
  {
    ReachableHasInv(s);
    assert ConfirmerOk(c, s.confirmers[c], s.log);
  }

  predicate ByConfirmer(st: Step) {
    st.ConfirmArrive? || st.ConfirmRead? || st.ConfirmCas? || st.ConfirmGate? || st.EffectReturn? || st.Publish?
  }

  lemma PollersDoNotDisturb(s: State, st: Step)
    requires !ByConfirmer(st)
    ensures var s' := Next(s, st);
            && s'.confirmers == s.confirmers && s'.log.wins == s.log.wins
            && s'.entry.session.action == s.entry.session.action
            && s'.log.effects == s.log.effects && s'.log.returned == s.log.returned
  {
  }

  /** Over any history, a confirm script that takes effect on a live key wins exactly when
      no script has won before, whichever thread runs it and whether or not it learns so. */
  lemma CasWinsIff(s: State, c: nat, fault: WriteFault, ttl: nat)
    requires Reachable(s) && c in s.confirmers && s.confirmers[c].pc.Deciding? && TtlReplyNow(s, ttl)
    ensures Next(s, ConfirmCas(c, fault, ttl)).log.wins ==
            if fault.Applied() && s.entry.Live(s.now) && s.log.wins == [] then [Win(c, s.confirmers[c].account, s.now)] else s.log.wins
  {
    ReachableHasInv(s);
    assert [] + [Win(c, s.confirmers[c].account, s.now)] == [Win(c, s.confirmers[c].account, s.now)];
  }

  lemma WinIsFinalStep(s: State, st: Step)
    requires Inv(s) && s.log.wins != []
    ensures Next(s, st).log.wins == s.log.wins
  {
    if !ByConfirmer(st) { PollersDoNotDisturb(s, st); }
  }

  /** Once a confirm has won, no continuation adds a win or changes the account it granted. */
  lemma {:induction false} WinIsFinal(s: State, steps: seq<Step>)
    requires Inv(s) && s.log.wins != []
    ensures var s' := Run(s, steps);
            Inv(s') && s'.log.wins == s.log.wins && s'.entry.session.accountId == s.log.wins[0].account
    decreases |steps|
  {
    if steps != [] {
      WinIsFinalStep(s, steps[0]);
      StepKeepsInv(s, steps[0]);
      WinIsFinal(Next(s, steps[0]), steps[1..]);
    }
  }

  // ---- No lost wake-up ----

  /** Once the confirm has been published, every poller blocked on the channel has
      a message waiting for it: read, subscribe, read, wait leaves no gap. */
  lemma NoLostWakeup(s: State, p: nat)
    requires Reachable(s) && p in s.pollers && s.pollers[p].pc.Waiting? && s.log.published > 0
    ensures s.pollers[p].mailbox > 0
  {
    ReachableHasInv(s);
    assert PollerOk(p, s.pollers[p], s.entry.session.action, s.log);
  }

  /** ... and its own next steps then end in a definite answer, whatever the time. */
  lemma WokenPollerIsAnswered(s: State, p: nat, ttl: nat)
    requires Reachable(s) && p in s.pollers && s.pollers[p].pc.Waiting? && s.log.published > 0
    requires TtlReplyNow(s, ttl)
    ensures var s' := Next(Next(Next(s, PollWake(p)), PollRead(p, false)), PollConsume(p, NoFault, ttl, true));
            && p in s'.pollers && |s'.pollers[p].responses| == 1
            && var r := s'.pollers[p].responses[0];
            && (s.entry.Live(s.now) && s.entry.session.status == Confirmed <==> Grants(r))
            && (!Grants(r) ==> r == if s.entry.Live(s.now) then AlreadyConsumed else NotFound)
  {
    ReachableHasInv(s);
    assert PollerOk(p, s.pollers[p], s.entry.session.action, s.log);
    var s1 := Next(s, PollWake(p));
    assert s1.entry == s.entry && s1.now == s.now && s1.pollers[p].pc == WokenRead;
    var s2 := Next(s1, PollRead(p, false));
    assert s2.entry == s.entry && s2.now == s.now;
  }

  // ---- Progress ----

  /** Left alone, a new confirmer of a live pending session wins the script. */
  lemma ConfirmWins(s: State, c: nat, account: int, ttl: nat)
    requires c !in s.confirmers && s.entry.Live(s.now) && s.entry.session.status == Pending && TtlReplyNow(s, ttl)
    ensures Next(Next(Next(s, ConfirmArrive(c, account)), ConfirmRead(c, false, true)), ConfirmCas(c, NoFault, ttl))
         == s.(confirmers := s.confirmers[c := Confirmer(Won, account, [])],
               pollers := MarkBlocked(s.pollers),
               entry := AfterConfirm(s.entry, s.now, ttl, account),
               log := s.log.(wins := s.log.wins + [Win(c, account, s.now)]))
  {
    var k := Confirmer(Reading, account, []);
    assert Next(s, ConfirmArrive(c, account)) == s.(confirmers := s.confirmers[c := k]);
    assert Next(s.(confirmers := s.confirmers[c := k]), ConfirmRead(c, false, true))
        == s.(confirmers := s.confirmers[c := k.(pc := Deciding)]) by {
      assert s.confirmers[c := k][c := k.(pc := Deciding)] == s.confirmers[c := k.(pc := Deciding)];
    }
    assert s.confirmers[c := k.(pc := Deciding)][c := k.(pc := Won)] == s.confirmers[c := k.(pc := Won)];
  }

  /** ... and, once it has won, its side effect (if the action has one) runs, then the
      publish reaches every subscription, then it has answered. */
  lemma WinnerFinishes(s: State, c: nat)
    requires s.ver == V2 && c in s.confirmers && s.confirmers[c].pc.Won? && s.confirmers[c].replies == []
    ensures var s1 := Next(s, ConfirmGate(c, true));
            var s2 := if s.entry.session.action == Login then s1 else Next(s1, EffectReturn(c, true));
            var account := s.confirmers[c].account;
            && Next(s2, Publish(c, true))
            == s.(confirmers := s.confirmers[c := Confirmer(Answered, account, [Accepted])],
                  pollers := Deliver(s.pollers),
                  log := s.log.(effects := if s.entry.session.action == Login then s.log.effects else s.log.effects + [account],
                                returned := s.log.returned + if s.entry.session.action == Login then 0 else 1,
                                published := s.log.published + 1))
  {
    var account := s.confirmers[c].account;
    assert [] + [Accepted] == [Accepted];
    var s1 := Next(s, ConfirmGate(c, true));
    var s2 := if s.entry.session.action == Login then s1 else Next(s1, EffectReturn(c, true));
    assert s2.confirmers == s.confirmers[c := Confirmer(Publishing, account, [Accepted])];
    assert s2.pollers == s.pollers && s2.entry == s.entry;
    assert s2.confirmers[c := Confirmer(Answered, account, [Accepted])] == s.confirmers[c := Confirmer(Answered, account, [Accepted])];
  }

  /** Left alone, a new poller of a live pending session ends up blocked on its channel. */
  lemma PollerGetsToWait(s: State, p: nat, timeout: nat)
    requires s.ver == V2 && p !in s.pollers && |s.holders| + s.foreign < s.cap && timeout > 0
    requires s.entry.Live(s.now) && s.entry.session.status == Pending
    ensures var s' := Next(Next(Next(Next(s, PollArrive(p, timeout)), PollRead(p, false)), PollSubscribe(p, true)), PollRead(p, false));
            && p in s'.pollers && s'.pollers[p] == Poller(Waiting, s.now + timeout, true, 0, [], false)
            && s'.holders == s.holders + {p} && s'.entry == s.entry && s'.log == s.log
  {
    var s1 := Next(s, PollArrive(p, timeout));
    assert s1.pollers[p] == Poller(FirstRead, s.now + timeout, false, 0, [], false);
    var s2 := Next(s1, PollRead(p, false));
    assert s2.pollers[p] == Poller(Subscribing, s.now + timeout, false, 0, [], false);
    var s3 := Next(s2, PollSubscribe(p, true));
    assert s3.pollers[p] == Poller(SecondRead, s.now + timeout, true, 0, [], false);
  }

  // ---- The side effect ----

  /** join_org and delegate call their side effect at most once over all runs, for
      the winner's account; a login session never does. */
  lemma EffectAtMostOnce(s: State)
    requires Reachable(s)
    ensures |s.log.effects| <= 1
    ensures forall a :: a in s.log.effects ==>
              s.entry.session.action != Login && |s.log.wins| == 1 && a == s.log.wins[0].account
  {
    ReachableHasInv(s);
  }

  /** Nothing that can still happen starts or finishes a side effect. */
  ghost predicate Settled(s: State) {
    forall steps: seq<Step> ::
      Run(s, steps).log.effects == s.log.effects && Run(s, steps).log.returned == s.log.returned
  }

  ghost predicate Quiet(s: State) {
    && s.log.wins != [] && s.log.wins[0].confirmer in s.confirmers
    && var pc := s.confirmers[s.log.wins[0].confirmer].pc;
    !pc.InEffect? && (pc.Won? ==> s.entry.session.action == Login)
  }

  lemma QuietStep(s: State, st: Step)
    requires Inv(s) && Quiet(s)
    ensures var s' := Next(s, st);
            Quiet(s') && s'.log.effects == s.log.effects && s'.log.returned == s.log.returned
  {
    if !ByConfirmer(st) {
      PollersDoNotDisturb(s, st);
    } else if st.c in s.confirmers {
      assert ConfirmerOk(st.c, s.confirmers[st.c], s.log);
      assert s.entry.session.status != Pending;
    }
  }

  lemma {:induction false} QuietRun(s: State, steps: seq<Step>)
    requires Inv(s) && Quiet(s)
    ensures Run(s, steps).log.effects == s.log.effects && Run(s, steps).log.returned == s.log.returned
    decreases |steps|
  {
    if steps != [] {
      QuietStep(s, steps[0]);
      StepKeepsInv(s, steps[0]);
      QuietRun(Next(s, steps[0]), steps[1..]);
    }
  }

  lemma SettledIsQuiet(s: State)
    requires Inv(s) && s.log.wins != []
    ensures Settled(s) <==> Quiet(s)
  {
    var c := s.log.wins[0].confirmer;
    if Quiet(s) {
      forall steps: seq<Step>
        ensures Run(s, steps).log.effects == s.log.effects && Run(s, steps).log.returned == s.log.returned
      {
        QuietRun(s, steps);
      }
    } else {
      var st := if s.confirmers[c].pc.InEffect? then EffectReturn(c, true) else ConfirmGate(c, true);
      assert Run(s, [st]) == Next(s, st) by { assert [st][1..] == []; }
      assert Run(s, [st]).log != s.log;
    }
  }

  /** When the world has converged: the winner is past its side effect, or has none to run. */
  lemma SettledIff(s: State)
    requires Reachable(s) && s.log.wins != []
    ensures s.log.wins[0].confirmer in s.confirmers
    ensures Settled(s) <==> Quiet(s)
  {
    ReachableHasInv(s);
    SettledIsQuiet(s);
  }

  /** A poller that was already blocked on the channel when the script won reports
      the confirmation only after the side effect has returned for good. */
  lemma BlockedPollerReportsAfterEffect(s: State, p: nat)
    requires Reachable(s) && p in s.pollers && s.pollers[p].blockedAtConfirm
    requires s.pollers[p].responses != [] && Grants(s.pollers[p].responses[0])
    ensures Settled(s) && s.log.returned == |s.log.effects|
  {
    ReachableHasInv(s);
    assert PollerOk(p, s.pollers[p], s.entry.session.action, s.log);
    SettledIff(s);
  }

  // A poller that reads on its own has no such guarantee.

  function DelegateStart(): State {
    State(V2, 1, 0, {}, 0, 0, Entry(Session(Delegate, Pending, 0, 7), SESSION_TTL), map[], map[],
          Log([], [], [], [], 0, 0))
  }

  function DelegateRunning(): State {
    State(V2, 1, 0, {}, 0, 0, Entry(Session(Delegate, Confirmed, 9, 7), SESSION_TTL), map[],
          map[0 := Confirmer(InEffect, 9, [])], Log([Win(0, 9, 0)], [], [], [9], 0, 0))
  }

  lemma DelegateRuns()
    ensures Init(DelegateStart())
    ensures Run(DelegateStart(), [ConfirmArrive(0, 9), ConfirmRead(0, false, true), ConfirmCas(0, NoFault, 300), ConfirmGate(0, true)])
         == DelegateRunning()
  {
    var s0 := DelegateStart();
    var s1 := s0.(confirmers := map[0 := Confirmer(Reading, 9, [])]);
    var s2 := s0.(confirmers := map[0 := Confirmer(Deciding, 9, [])]);
    var s3 := DelegateRunning().(confirmers := map[0 := Confirmer(Won, 9, [])], log := Log([Win(0, 9, 0)], [], [], [], 0, 0));
    assert Next(s0, ConfirmArrive(0, 9)) == s1;
    assert Next(s1, ConfirmRead(0, false, true)) == s2;
    assert Next(s2, ConfirmCas(0, NoFault, 300)) == s3 by { assert MarkBlocked(map[]) == map[]; }
    assert Next(s3, ConfirmGate(0, true)) == DelegateRunning();
    RunOne(s3, ConfirmGate(0, true));
    RunFront(s2, ConfirmCas(0, NoFault, 300), [ConfirmGate(0, true)]);
    RunFront(s1, ConfirmRead(0, false, true), [ConfirmCas(0, NoFault, 300), ConfirmGate(0, true)]);
    RunFront(s0, ConfirmArrive(0, 9), [ConfirmRead(0, false, true), ConfirmCas(0, NoFault, 300), ConfirmGate(0, true)]);
    assert [ConfirmArrive(0, 9)] + [ConfirmRead(0, false, true), ConfirmCas(0, NoFault, 300), ConfirmGate(0, true)]
        == [ConfirmArrive(0, 9), ConfirmRead(0, false, true), ConfirmCas(0, NoFault, 300), ConfirmGate(0, true)];
    assert [ConfirmRead(0, false, true)] + [ConfirmCas(0, NoFault, 300), ConfirmGate(0, true)]
        == [ConfirmRead(0, false, true), ConfirmCas(0, NoFault, 300), ConfirmGate(0, true)];
    assert [ConfirmCas(0, NoFault, 300)] + [ConfirmGate(0, true)] == [ConfirmCas(0, NoFault, 300), ConfirmGate(0, true)];
  }

  lemma RunOne(s: State, st: Step)
    ensures Run(s, [st]) == Next(s, st)
  {
    assert [st][1..] == [];
  }

  lemma RunFront(s: State, st: Step, rest: seq<Step>)
    ensures Run(s, [st] + rest) == Run(Next(s, st), rest)
  {
    assert ([st] + rest)[1..] == rest;
  }

  /** Concretely: while ExecuteDelegate is running, the first read of a newly arrived
      poller already reports the operation as confirmed. */
  lemma EarlyReport()
    ensures Reachable(DelegateRunning())
    ensures var s := Next(Next(Next(DelegateRunning(), PollArrive(1, 30_000)), PollRead(1, false)), PollConsume(1, NoFault, 300, true));
            && 1 in s.pollers && s.pollers[1].responses == [Reported(9)]
            && |s.log.effects| == 1 && s.log.returned == 0
  {
    DelegateRuns();
    var s1 := Next(DelegateRunning(), PollArrive(1, 30_000));
    assert s1.pollers[1] == Poller(FirstRead, 30_000, false, 0, [], false);
    var s2 := Next(s1, PollRead(1, false));
    assert s2.pollers[1].pc == Consuming(Session(Delegate, Confirmed, 9, 7));
  }

  ghost predicate OwnSteps(steps: seq<Step>, p: nat) { forall i :: 0 <= i < |steps| ==> ByPoller(steps[i], p) }

  ghost predicate Reports(s: State, p: nat) {
    p in s.pollers && s.pollers[p].responses != [] && s.pollers[p].responses[0].Reported?
  }

  /** A poller's own steps start and finish no side effect, and no one's mark changes. */
  lemma OwnStepIsQuiet(s: State, st: Step, p: nat)
    requires p in s.pollers && ByPoller(st, p)
    ensures var s' := Next(s, st);
            && p in s'.pollers && s'.pollers[p].blockedAtConfirm == s.pollers[p].blockedAtConfirm
            && (Quiet(s') <==> Quiet(s)) && s'.log.wins == s.log.wins
  {
    PollersDoNotDisturb(s, st);
  }

  lemma {:induction false} OwnRunIsQuiet(s: State, steps: seq<Step>, p: nat)
    requires Inv(s) && p in s.pollers && OwnSteps(steps, p)
    ensures var s' := Run(s, steps);
            && Inv(s') && p in s'.pollers && s'.pollers[p].blockedAtConfirm == s.pollers[p].blockedAtConfirm
            && (Quiet(s') <==> Quiet(s)) && s'.log.wins == s.log.wins
    decreases |steps|
  {
    if steps != [] {
      assert ByPoller(steps[0], p);
      OwnStepIsQuiet(s, steps[0], p);
      StepKeepsInv(s, steps[0]);
      assert OwnSteps(steps[1..], p) by {
        forall i | 0 <= i < |steps[1..]| ensures ByPoller(steps[1..][i], p) { assert ByPoller(steps[i + 1], p); }
      }
      OwnRunIsQuiet(Next(s, steps[0]), steps[1..], p);
    }
  }

  /** Confirmed, still live, and the side effect not over. */
  ghost predicate Converging(s: State) {
    Inv(s) && s.entry.Live(s.now) && s.entry.session.status == Confirmed && !Quiet(s)
  }

  lemma ConsumingReports(s: State, p: nat)
    requires Converging(s) && p in s.pollers && s.pollers[p].pc.Consuming?
    ensures var st := PollConsume(p, NoFault, (s.entry.expiry - s.now) / SECOND, true);
            ByPoller(st, p) && Reports(Next(s, st), p)
  {
    assert PollerOk(p, s.pollers[p], s.entry.session.action, s.log);
    assert ConfirmerOk(s.log.wins[0].confirmer, s.confirmers[s.log.wins[0].confirmer], s.log);
    var ttl := (s.entry.expiry - s.now) / SECOND;
    assert TtlReplyNow(s, ttl);
  }

  lemma ReadingReports(s: State, p: nat) returns (steps: seq<Step>)
    requires Converging(s) && p in s.pollers && ReadsNow(s.pollers[p].pc)
    ensures OwnSteps(steps, p) && Reports(Run(s, steps), p)
  {
    var st := PollRead(p, false);
    var s1 := Next(s, st);
    StepKeepsInv(s, st);
    OwnStepIsQuiet(s, st, p);
    ConsumingReports(s1, p);
    steps := TwoSteps(s, p, st, PollConsume(p, NoFault, (s1.entry.expiry - s1.now) / SECOND, true));
  }

  lemma TwoSteps(s: State, p: nat, a: Step, b: Step) returns (steps: seq<Step>)
    requires ByPoller(a, p) && ByPoller(b, p)
    ensures OwnSteps(steps, p) && Run(s, steps) == Next(Next(s, a), b)
  {
    steps := [a] + [b];
    RunFront(s, a, [b]);
    RunOne(Next(s, a), b);
  }

  /** A step that brings the poller to a read of its own. */
  lemma ReadingNextReports(s: State, p: nat, st: Step) returns (steps: seq<Step>)
    requires Converging(s) && p in s.pollers && ByPoller(st, p)
    requires var s1 := Next(s, st); s1.entry == s.entry && s1.now == s.now && p in s1.pollers && ReadsNow(s1.pollers[p].pc)
    ensures OwnSteps(steps, p) && Reports(Run(s, steps), p)
  {
    StepKeepsInv(s, st);
    OwnStepIsQuiet(s, st, p);
    var rest := ReadingReports(Next(s, st), p);
    RunFront(s, st, rest);
    steps := [st] + rest;
  }

  lemma UnmarkedReports(s: State, p: nat) returns (steps: seq<Step>)
    requires Converging(s) && p in s.pollers && !s.pollers[p].pc.Finished? && !s.pollers[p].blockedAtConfirm
    ensures OwnSteps(steps, p) && Reports(Run(s, steps), p)
  {
    var pc := s.pollers[p].pc;
    assert PollerOk(p, s.pollers[p], s.entry.session.action, s.log);
    assert !pc.Waiting?;
    if ReadsNow(pc) {
      steps := ReadingReports(s, p);
    } else if pc.Consuming? {
      ConsumingReports(s, p);
      var st := PollConsume(p, NoFault, (s.entry.expiry - s.now) / SECOND, true);
      RunOne(s, st);
      steps := [st];
    } else if pc.Subscribing? {
      steps := ReadingNextReports(s, p, PollSubscribe(p, true));
    } else {
      steps := ReadingNextReports(s, p, PollSlept(p));
    }
  }

  /** Which pollers can report an operation that has not converged: in every reachable state
      that is confirmed, live and not yet past its side effect, an unfinished poller can get
      to a confirmed report by its own steps exactly when it was not blocked on the channel
      at the confirm; and by then the side effect is still not over. */
  lemma EarlyReportIff(s: State, p: nat)
    requires Reachable(s) && s.entry.Live(s.now) && s.entry.session.status == Confirmed && !Settled(s)
    requires p in s.pollers && !s.pollers[p].pc.Finished?
    ensures (exists steps: seq<Step> :: OwnSteps(steps, p) && Reports(Run(s, steps), p)) <==> !s.pollers[p].blockedAtConfirm
    ensures forall steps: seq<Step> :: OwnSteps(steps, p) ==> !Settled(Run(s, steps))
  {
    ReachableHasInv(s);
    SettledIff(s);
    forall steps: seq<Step> | OwnSteps(steps, p)
      ensures !Settled(Run(s, steps)) && (s.pollers[p].blockedAtConfirm ==> !Reports(Run(s, steps), p))
    {
      OwnRunIsQuiet(s, steps, p);
      SettledIsQuiet(Run(s, steps));
      assert PollerOk(p, Run(s, steps).pollers[p], Run(s, steps).entry.session.action, Run(s, steps).log);
    }
    if !s.pollers[p].blockedAtConfirm { var steps := UnmarkedReports(s, p); }
  }

  // ---- Lifetimes ----

  /** A confirm wins only within five minutes of creation, and eleven minutes after
      creation the record is gone, on every run and for every TTL reply. */
  lemma LifetimeBounds(s: State)
    requires Reachable(s)
    ensures s.log.wins != [] ==> s.log.wins[0].at < s.created + SESSION_TTL
    ensures s.now >= s.created + 2 * SESSION_TTL + CONSUMED_TTL ==> !s.entry.Live(s.now)
  {
    ReachableHasInv(s);
  }

  /** The confirm script keeps the remaining window to within a second, either way, exactly when
      TTL replied with a positive number; a zero reply starts a new five minutes. */
  lemma ConfirmKeepsWindowIff(e: Entry, now: nat, ttl: nat, accountId: int)
    requires e.Live(now) && e.session.status == Pending && TtlReply(e.expiry - now, ttl)
    ensures var e' := AfterConfirm(e, now, ttl, accountId);
            && (ttl > 0 <==> e.expiry < e'.expiry + SECOND && e'.expiry < e.expiry + SECOND)
            && (ttl == 0 ==> e'.expiry == now + SESSION_TTL && e.expiry - now < SECOND)
  {
  }

  // ---- Poll slots ----

  /** Every unfinished v2 poller holds one slot, a finished one holds none, and all
      sessions together never hold more than the semaphore's capacity. */
  lemma SlotsAreConserved(s: State)
    requires Reachable(s)
    ensures |s.holders| + s.foreign <= s.cap
    ensures s.ver == V2 ==> s.holders == set p | p in s.pollers && !s.pollers[p].pc.Finished?
  {
    ReachableHasInv(s);
  }

  // ---- v1 and v2 refine one machine ----

  datatype Phase = Open | Granted(account: int) | Redeemed(account: int) | Gone

  /** A one-shot grant: opened once, granted to one account, redeemed once, or gone. */
  datatype Grant = Grant(phase: Phase, issued: seq<int>)

  ghost predicate GrantNext(a: Grant, b: Grant) {
    || a == b
    || (a.phase.Open? && b.phase.Granted? && b.issued == a.issued)
    || (a.phase.Granted? && b.phase == Redeemed(a.phase.account) && (b.issued == a.issued || b.issued == a.issued + [a.phase.account]))
    || (b.phase.Gone? && b.issued == a.issued)
  }

  function Abstract(s: State): Grant {
    Grant(if !s.entry.Live(s.now) then Gone
          else match s.entry.session.status
               case Pending => Open
               case Confirmed => Granted(s.entry.session.accountId)
               case Consumed => Redeemed(s.entry.session.accountId),
          s.log.tokens)
  }

  /** Only time and the two scripts can change what Abstract sees. */
  lemma OtherStepsStutter(s: State, st: Step)
    requires !st.Tick? && !st.PollConsume? && !st.ConfirmCas?
    ensures var s' := Next(s, st); s'.entry == s.entry && s'.now == s.now && s'.log.tokens == s.log.tokens
  {
  }

  lemma StepRefines(s: State, st: Step)
    requires Inv(s)
    ensures GrantNext(Abstract(s), Abstract(Next(s, st)))
  {
    if st.PollConsume? {
      if st.p in s.pollers && s.pollers[st.p].pc.Consuming? {
        assert PollerOk(st.p, s.pollers[st.p], s.entry.session.action, s.log);
      }
    } else if !st.Tick? && !st.ConfirmCas? {
      OtherStepsStutter(s, st);
    }
  }

  lemma RunSnoc(s: State, steps: seq<Step>, st: Step)
    ensures Run(s, steps + [st]) == Next(Run(s, steps), st)
    decreases |steps|
  {
    if steps == [] {
      assert ([] + [st])[1..] == [];
    } else {
      assert (steps + [st])[1..] == steps[1..] + [st];
      RunSnoc(Next(s, steps[0]), steps[1..], st);
    }
  }

  /** Every run of either version, seen through Abstract, is a run of the one-shot grant. */
  lemma {:induction false} RunRefines(start: State, steps: seq<Step>, i: nat)
    requires Init(start) && i < |steps|
    ensures Abstract(start) == Grant(Open, [])
    ensures GrantNext(Abstract(Run(start, steps[..i])), Abstract(Run(start, steps[..i + 1])))
  {
    var s := Run(start, steps[..i]);
    RunKeepsInv(start, steps[..i]);
    assert steps[..i + 1] == steps[..i] + [steps[i]];
    RunSnoc(start, steps[..i], steps[i]);
    StepRefines(s, steps[i]);
  }
}
