/** What holds of a QR session in every interleaving of confirmers, pollers and time. */
module QrProtocolProofs {
  import opened Prelude
  import opened QrScripts
  import opened QrProtocol

  // ---- The inductive invariant ----

  /** Everything known about one poller; it depends only on the log. */
  ghost predicate PollerOk(p: nat, q: Poller, action: Action, log: Log) {
    && (q.pc.Finished? <==> |q.responses| == 1) && |q.responses| <= 1
    && (q.pc.Consuming? ==> |log.wins| == 1 && q.pc.seen == Session(action, Confirmed, log.wins[0].account, q.pc.seen.createdBy))
    && (q.mailbox > 0 ==> log.published > 0)
    && (q.subscribed ==> q.pc.SecondRead? || q.pc.Waiting? || q.pc.WokenRead? || q.pc.Consuming?)
    && (q.pc.SecondRead? || q.pc.Waiting? ==> q.subscribed)
    && (q.pc.Waiting? && log.published > 0 ==> q.mailbox > 0)
    && (q.pc.Waiting? && log.wins != [] ==> q.blockedAtConfirm)
    && (q.pc.WokenRead? ==> log.published > 0)
    && (q.responses != [] && (q.responses[0].Token? || q.responses[0].Reported?) ==>
          |log.wins| == 1 && q.responses[0].account == log.wins[0].account && log.consumes == [p]
          && (q.responses[0].Token? <==> action == Login))
    && (q.blockedAtConfirm ==>
          && |log.wins| == 1
          && (q.pc.Waiting? || q.pc.WokenRead? || q.pc.Consuming? || q.pc.Finished?)
          && (q.pc.Consuming? ==> log.published > 0)
          && (q.responses != [] && (q.responses[0].Token? || q.responses[0].Reported?) ==> log.published > 0))
  }

  /** A confirmer past the script is the one and only winner. */
  ghost predicate ConfirmerOk(c: nat, k: Confirmer, log: Log) {
    && (k.pc.Won? || k.pc.InEffect? || k.pc.Publishing? ==> |log.wins| == 1 && log.wins[0].confirmer == c)
    && |k.replies| == (if k.pc.Publishing? || k.pc.Answered? then 1 else 0)
    && (k.replies == [Accepted] ==> |log.wins| == 1 && log.wins[0].confirmer == c)
  }

  /** How far the side effect and the publish have got, by the winner's own progress. */
  ghost predicate WinnerOk(s: State) {
    var log := s.log;
    && |log.wins| <= 1
    && (log.wins == [] ==> log.effects == [] && log.returned == 0 && log.published == 0)
    && (log.wins != [] ==>
          var w := log.wins[0];
          && w.confirmer in s.confirmers
          && s.confirmers[w.confirmer].account == w.account
          && (s.entry.session.action == Login ==> log.effects == [])
          && match s.confirmers[w.confirmer].pc
             case Won => log.effects == [] && log.returned == 0 && log.published == 0
             case InEffect => log.effects == [w.account] && log.returned == 0 && log.published == 0
             case Publishing => s.ver == V2 && log.published == 0 && EffectSettled(log, w.account)
             case Answered => log.published <= 1 && EffectSettled(log, w.account)
             case _ => false)
  }

  ghost predicate EffectSettled(log: Log, account: int) {
    || (log.effects == [] && log.returned == 0)
    || (log.effects == [account] && log.returned == 1)
  }

  ghost predicate EntryOk(s: State) {
    var log := s.log;
    && s.created <= s.now
    && (s.ver == V1 ==> s.entry.session.action == Login && log.published == 0)
    && |log.consumes| <= |log.wins|
    && (s.entry.session.status == Pending <==> log.wins == [])
    && (s.entry.session.status == Consumed <==> |log.consumes| == 1)
    && (log.wins != [] ==> s.entry.session.accountId == log.wins[0].account)
    && |log.tokens| <= |log.consumes|
    && (log.tokens != [] ==> log.tokens == [log.wins[0].account] && s.entry.session.action == Login)
    && (log.wins != [] ==> log.wins[0].at < s.created + SESSION_TTL)
    && match s.entry.session.status
       case Pending => s.entry.expiry == s.created + SESSION_TTL
       case Confirmed => s.entry.expiry <= s.created + 2 * SESSION_TTL
       case Consumed => s.entry.expiry <= s.created + 2 * SESSION_TTL + CONSUMED_TTL
  }

  ghost predicate SlotsOk(s: State) {
    && (s.ver == V2 ==> forall p :: p in s.holders <==> p in s.pollers && !s.pollers[p].pc.Finished?)
    && (s.ver == V1 ==> s.holders == {} && forall p :: p in s.pollers ==>
          !s.pollers[p].subscribed && (s.pollers[p].pc.FallbackRead? || s.pollers[p].pc.FallbackSleep? || s.pollers[p].pc.Consuming? || s.pollers[p].pc.Finished?))
    && |s.holders| + s.foreign <= s.cap
  }

  ghost predicate Inv(s: State) {
    && EntryOk(s) && WinnerOk(s) && SlotsOk(s)
    && (forall p :: p in s.pollers ==> PollerOk(p, s.pollers[p], s.entry.session.action, s.log))
    && (forall c :: c in s.confirmers ==> ConfirmerOk(c, s.confirmers[c], s.log))
  }

  ghost predicate V1Pc(pc: PollPc) {
    pc.FallbackRead? || pc.FallbackSleep? || pc.Consuming? || pc.Finished?
  }

  /** Everything but one poller and the slots stays as it was. */
  lemma PollerUpdateKeepsInv(s: State, p: nat, q: Poller, holders: set<nat>)
    requires Inv(s)
    requires PollerOk(p, q, s.entry.session.action, s.log)
    requires SlotsOk(s.(pollers := s.pollers[p := q], holders := holders))
    ensures Inv(s.(pollers := s.pollers[p := q], holders := holders))
  {
    var s' := s.(pollers := s.pollers[p := q], holders := holders);
    assert EntryOk(s') && WinnerOk(s');
    forall x | x in s'.pollers ensures PollerOk(x, s'.pollers[x], s'.entry.session.action, s'.log) {
      if x != p { assert PollerOk(x, s.pollers[x], s.entry.session.action, s.log); }
    }
  }

  lemma AnswerKeepsInv(s: State, p: nat, r: Response)
    requires Inv(s) && p in s.pollers && !s.pollers[p].pc.Finished?
    requires PollerOk(p, s.pollers[p].(pc := Finished, subscribed := false, responses := [r]), s.entry.session.action, s.log)
    ensures Inv(Answer(s, p, r)) && Answer(s, p, r).pollers[p].responses == [r]
  {
    assert PollerOk(p, s.pollers[p], s.entry.session.action, s.log);
    assert [] + [r] == [r];
    var q := s.pollers[p].(pc := Finished, subscribed := false, responses := [r]);
    var s' := s.(pollers := s.pollers[p := q], holders := s.holders - {p});
    assert |s.holders - {p}| <= |s.holders|;
    assert SlotsOk(s');
    PollerUpdateKeepsInv(s, p, q, s.holders - {p});
    assert Answer(s, p, r) == s';
  }

  lemma GotoKeepsInv(s: State, p: nat, q: Poller)
    requires Inv(s) && p in s.pollers && !s.pollers[p].pc.Finished? && !q.pc.Finished?
    requires PollerOk(p, q, s.entry.session.action, s.log)
    requires s.ver == V1 ==> V1Pc(q.pc) && !q.subscribed
    ensures Inv(s.(pollers := s.pollers[p := q]))
  {
    var s' := s.(pollers := s.pollers[p := q], holders := s.holders);
    assert SlotsOk(s');
    PollerUpdateKeepsInv(s, p, q, s.holders);
  }

  lemma ArriveKeepsInv(s: State, p: nat, timeout: nat)
    requires Inv(s)
    ensures Inv(ArrivePoller(s, p, timeout))
  {
    if p !in s.pollers {
      var s' := ArrivePoller(s, p, timeout);
      if s.ver == V2 { assert p !in s.holders; }
      assert SlotsOk(s');
      PollerUpdateKeepsInv(s, p, s'.pollers[p], s'.holders);
    }
  }

  /** An answer that grants nothing is always safe. */
  lemma PlainAnswerKeepsInv(s: State, p: nat, r: Response)
    requires Inv(s) && p in s.pollers && !s.pollers[p].pc.Finished?
    requires !r.Token? && !r.Reported?
    ensures Inv(Answer(s, p, r)) && Answer(s, p, r).pollers[p].responses == [r]
  {
    assert PollerOk(p, s.pollers[p], s.entry.session.action, s.log);
    AnswerKeepsInv(s, p, r);
  }

  lemma ReadPendingKeepsInv(s: State, p: nat)
    requires Inv(s) && p in s.pollers && ReadsNow(s.pollers[p].pc)
    requires s.entry.Live(s.now) && s.entry.session.status == Pending
    ensures Inv(ReadPoller(s, p, false))
  {
    var q := s.pollers[p];
    assert PollerOk(p, q, s.entry.session.action, s.log);
    assert s.log.published == 0; // so nothing can have woken this poller: q.pc is not WokenRead
    match q.pc
    case FirstRead => GotoKeepsInv(s, p, q.(pc := Subscribing));
    case SecondRead =>
      if q.deadline <= s.now { PlainAnswerKeepsInv(s, p, StillPending); } else { GotoKeepsInv(s, p, q.(pc := Waiting)); }
    case FallbackRead =>
      if (if s.ver == V1 then q.deadline < s.now else q.deadline <= s.now) {
        PlainAnswerKeepsInv(s, p, StillPending);
      } else {
        GotoKeepsInv(s, p, q.(pc := FallbackSleep));
      }
  }

  lemma ReadKeepsInv(s: State, p: nat, fails: bool)
    requires Inv(s)
    ensures Inv(ReadPoller(s, p, fails))
  {
    if p in s.pollers && ReadsNow(s.pollers[p].pc) {
      if fails {
        PlainAnswerKeepsInv(s, p, ReadFailed);
      } else if !s.entry.Live(s.now) {
        PlainAnswerKeepsInv(s, p, NotFound);
      } else if s.entry.session.status == Pending {
        ReadPendingKeepsInv(s, p);
      } else if s.entry.session.status == Consumed {
        PlainAnswerKeepsInv(s, p, AlreadyConsumed);
      } else {
        assert PollerOk(p, s.pollers[p], s.entry.session.action, s.log);
        GotoKeepsInv(s, p, s.pollers[p].(pc := Consuming(s.entry.session)));
      }
    }
  }

  lemma PollerStepKeepsInv(s: State, st: Step)
    requires Inv(s)
    requires st.PollSubscribe? || st.PollWake? || st.PollTimeout? || st.PollCancel? || st.PollSlept?
    ensures Inv(Next(s, st))
  {
    if st.p in s.pollers {
      var q := s.pollers[st.p];
      assert PollerOk(st.p, q, s.entry.session.action, s.log);
      match st
      case PollSubscribe(p, live) =>
        if q.pc.Subscribing? {
          GotoKeepsInv(s, p, if live then q.(pc := SecondRead, subscribed := true) else q.(pc := FallbackRead));
        }
      case PollWake(p) =>
        if q.pc.Waiting? && q.mailbox > 0 {
          GotoKeepsInv(s, p, q.(pc := WokenRead, mailbox := q.mailbox - 1));
        }
      case PollSlept(p) =>
        if q.pc.FallbackSleep? { GotoKeepsInv(s, p, q.(pc := FallbackRead)); }
      case PollTimeout(p) =>
        if q.pc.Waiting? && q.deadline <= s.now { PlainAnswerKeepsInv(s, p, StillPending); }
      case PollCancel(p) =>
        if q.pc.Waiting? || q.pc.FallbackSleep? { PlainAnswerKeepsInv(s, p, StillPending); }
    }
  }

  /** The log may only gain a consume or a token while the pollers stay as they are. */
  lemma ConsumeScriptKeepsInv(s: State, p: nat, ttl: nat, token: seq<int>)
    requires Inv(s) && TtlReplyNow(s, ttl)
    requires s.entry.Live(s.now) && s.entry.session.status == Confirmed
    requires token == [] || (token == [s.entry.session.accountId] && s.entry.session.action == Login)
    ensures Inv(s.(entry := AfterConsume(s.ver, s.entry, s.now, ttl),
                   log := s.log.(consumes := s.log.consumes + [p], tokens := s.log.tokens + token)))
  {
    var s' := s.(entry := AfterConsume(s.ver, s.entry, s.now, ttl),
                 log := s.log.(consumes := s.log.consumes + [p], tokens := s.log.tokens + token));
    assert s.log.consumes == [] && s.log.tokens == [] && s'.log.tokens == token && s'.log.consumes == [p];
    assert EntryOk(s');
    assert WinnerOk(s') by { assert s'.log.effects == s.log.effects; }
    assert SlotsOk(s');
    forall x | x in s'.pollers ensures PollerOk(x, s'.pollers[x], s'.entry.session.action, s'.log) {
      assert PollerOk(x, s.pollers[x], s.entry.session.action, s.log);
    }
    forall c | c in s'.confirmers ensures ConfirmerOk(c, s'.confirmers[c], s'.log) {
      assert ConfirmerOk(c, s.confirmers[c], s.log);
    }
  }

  /** The poller whose consume script won answers from its own earlier snapshot. */
  lemma WonConsumeKeepsInv(s: State, p: nat, fault: WriteFault, ttl: nat, signs: bool)
    requires Inv(s) && p in s.pollers && s.pollers[p].pc.Consuming? && TtlReplyNow(s, ttl)
    requires s.entry.Live(s.now) && s.entry.session.status == Confirmed && fault.Applied()
    ensures Inv(ConsumePoller(s, p, fault, ttl, signs))
  {
    var q := s.pollers[p];
    assert PollerOk(p, q, s.entry.session.action, s.log);
    var issues := !fault.Reported() && q.pc.seen.action == Login && signs;
    var token := if issues then [q.pc.seen.accountId] else [];
    ConsumeScriptKeepsInv(s, p, ttl, token);
    var s' := s.(entry := AfterConsume(s.ver, s.entry, s.now, ttl),
                 log := s.log.(consumes := s.log.consumes + [p], tokens := s.log.tokens + token));
    assert s.log.tokens + [] == s.log.tokens;
    assert PollerOk(p, q, s'.entry.session.action, s'.log);
    if fault.Reported() {
      PlainAnswerKeepsInv(s', p, ConsumeFailed);
    } else if q.pc.seen.action != Login {
      AnswerKeepsInv(s', p, Reported(q.pc.seen.accountId));
    } else if !signs {
      PlainAnswerKeepsInv(s', p, TokenFailed);
    } else {
      AnswerKeepsInv(s', p, Token(q.pc.seen.accountId));
    }
  }

  lemma ConsumeKeepsInv(s: State, p: nat, fault: WriteFault, ttl: nat, signs: bool)
    requires Inv(s)
    ensures Inv(ConsumePoller(s, p, fault, ttl, signs))
  {
    if p in s.pollers && s.pollers[p].pc.Consuming? && TtlReplyNow(s, ttl) {
      if !fault.Applied() {
        PlainAnswerKeepsInv(s, p, ConsumeFailed);
      } else if s.entry.Live(s.now) && s.entry.session.status == Confirmed {
        WonConsumeKeepsInv(s, p, fault, ttl, signs);
      } else {
        assert s.(entry := AfterConsume(s.ver, s.entry, s.now, ttl), log := s.log.(consumes := s.log.consumes + [])) == s;
        PlainAnswerKeepsInv(s, p, if fault.Reported() then ConsumeFailed else AlreadyConsumed);
      }
    }
  }

  lemma ReplyKeepsInv(s: State, c: nat, r: ConfirmReply)
    requires Inv(s) && c in s.confirmers
    requires s.confirmers[c].pc.Reading? || s.confirmers[c].pc.Deciding?
    requires r != Accepted
    ensures Inv(Reply(s, c, Answered, r))
  {
    assert ConfirmerOk(c, s.confirmers[c], s.log);
    assert [] + [r] == [r];
  }

  lemma ReadConfirmerKeepsInv(s: State, c: nat, fails: bool, sigOk: bool)
    requires Inv(s)
    ensures Inv(ReadConfirmer(s, c, fails, sigOk))
  {
    if c in s.confirmers && s.confirmers[c].pc.Reading? {
      if fails {
        ReplyKeepsInv(s, c, LoadFailed);
      } else if !s.entry.Live(s.now) {
        ReplyKeepsInv(s, c, KeyMissing);
      } else if s.ver == V2 && !sigOk {
        ReplyKeepsInv(s, c, BadSignature);
      } else if s.entry.session.status != Pending {
        ReplyKeepsInv(s, c, InvalidState);
      } else {
        assert ConfirmerOk(c, s.confirmers[c], s.log);
      }
    }
  }

  /** The winning run of the script, whatever its caller then sees. */
  lemma WinKeepsInv(s: State, c: nat, ttl: nat, k: Confirmer)
    requires Inv(s) && c in s.confirmers && s.confirmers[c].pc.Deciding? && TtlReplyNow(s, ttl)
    requires s.entry.Live(s.now) && s.entry.session.status == Pending
    requires k.account == s.confirmers[c].account
    requires (k.pc.Won? && k.replies == []) || (k.pc.Answered? && k.replies == [CasFailed])
    ensures Inv(s.(entry := AfterConfirm(s.entry, s.now, ttl, k.account),
                   pollers := MarkBlocked(s.pollers),
                   confirmers := s.confirmers[c := k],
                   log := s.log.(wins := s.log.wins + [Win(c, k.account, s.now)])))
  {
    var s' := s.(entry := AfterConfirm(s.entry, s.now, ttl, k.account),
                 pollers := MarkBlocked(s.pollers),
                 confirmers := s.confirmers[c := k],
                 log := s.log.(wins := s.log.wins + [Win(c, k.account, s.now)]));
    assert s'.log.wins == [Win(c, k.account, s.now)];
    assert EntryOk(s') && WinnerOk(s') && SlotsOk(s');
    forall p | p in s'.pollers ensures PollerOk(p, s'.pollers[p], s'.entry.session.action, s'.log) {
      assert PollerOk(p, s.pollers[p], s.entry.session.action, s.log);
    }
    forall d | d in s'.confirmers ensures ConfirmerOk(d, s'.confirmers[d], s'.log) {
      if d != c { assert ConfirmerOk(d, s.confirmers[d], s.log); }
    }
  }

  lemma CasKeepsInv(s: State, c: nat, fault: WriteFault, ttl: nat)
    requires Inv(s)
    ensures Inv(CasConfirmer(s, c, fault, ttl))
  {
    if c in s.confirmers && s.confirmers[c].pc.Deciding? && TtlReplyNow(s, ttl) {
      var k := s.confirmers[c];
      assert ConfirmerOk(c, k, s.log);
      assert [] + [CasFailed] == [CasFailed];
      if !fault.Applied() {
        ReplyKeepsInv(s, c, CasFailed);
      } else if !s.entry.Live(s.now) || s.entry.session.status != Pending {
        ReplyKeepsInv(s, c, if fault.Reported() then CasFailed else InvalidState);
      } else if fault.Reported() {
        WinKeepsInv(s, c, ttl, k.(pc := Answered, replies := [CasFailed]));
      } else {
        WinKeepsInv(s, c, ttl, k.(pc := Won));
      }
    }
  }

  /** The winner's own later steps: only its entry and the effect counters move. */
  lemma WinnerStepKeepsInv(s: State, c: nat, k: Confirmer, log: Log)
    requires Inv(s) && c in s.confirmers
    requires s.log.wins != [] && s.log.wins[0].confirmer == c && k.account == s.confirmers[c].account
    requires log == s.log.(effects := log.effects, returned := log.returned)
    requires s.log.published == 0
    requires WinnerOk(s.(confirmers := s.confirmers[c := k], log := log)) && ConfirmerOk(c, k, log)
    ensures Inv(s.(confirmers := s.confirmers[c := k], log := log))
  {
    var s' := s.(confirmers := s.confirmers[c := k], log := log);
    forall p | p in s'.pollers ensures PollerOk(p, s'.pollers[p], s'.entry.session.action, s'.log) {
      assert PollerOk(p, s.pollers[p], s.entry.session.action, s.log);
    }
    forall d | d in s'.confirmers ensures ConfirmerOk(d, s'.confirmers[d], s'.log) {
      if d != c { assert ConfirmerOk(d, s.confirmers[d], s.log); }
    }
    assert EntryOk(s');
  }

  lemma GateKeepsInv(s: State, c: nat, passes: bool)
    requires Inv(s)
    ensures Inv(GateConfirmer(s, c, passes))
  {
    if c in s.confirmers && s.confirmers[c].pc.Won? {
      var k := s.confirmers[c];
      assert ConfirmerOk(c, k, s.log);
      assert [] + [Accepted] == [Accepted] && [] + [Refused] == [Refused];
      if s.entry.session.action == Login {
        WinnerStepKeepsInv(s, c, k.(pc := if s.ver == V1 then Answered else Publishing, replies := [Accepted]), s.log);
      } else if !passes {
        WinnerStepKeepsInv(s, c, k.(pc := Publishing, replies := [Refused]), s.log);
      } else {
        assert s.log.effects + [k.account] == [k.account];
        WinnerStepKeepsInv(s, c, k.(pc := InEffect), s.log.(effects := [k.account]));
      }
    }
  }

  lemma EffectKeepsInv(s: State, c: nat, ok: bool)
    requires Inv(s)
    ensures Inv(EffectReturned(s, c, ok))
  {
    if c in s.confirmers && s.confirmers[c].pc.InEffect? {
      var k := s.confirmers[c];
      assert ConfirmerOk(c, k, s.log);
      var r := if ok then Accepted else EffectFailed;
      assert [] + [r] == [r];
      WinnerStepKeepsInv(s, c, k.(pc := Publishing, replies := [r]), s.log.(returned := s.log.returned + 1));
    }
  }

  lemma PublishKeepsInv(s: State, c: nat, delivered: bool)
    requires Inv(s)
    ensures Inv(PublishConfirmed(s, c, delivered))
  {
    if c in s.confirmers && s.confirmers[c].pc.Publishing? {
      assert ConfirmerOk(c, s.confirmers[c], s.log);
      var s' := PublishConfirmed(s, c, delivered);
      forall p | p in s'.pollers ensures PollerOk(p, s'.pollers[p], s'.entry.session.action, s'.log) {
        assert PollerOk(p, s.pollers[p], s.entry.session.action, s.log);
      }
      forall d | d in s'.confirmers ensures ConfirmerOk(d, s'.confirmers[d], s'.log) {
        if d != c { assert ConfirmerOk(d, s.confirmers[d], s.log); }
      }
      assert EntryOk(s') && WinnerOk(s') && SlotsOk(s');
    }
  }

  lemma EnvironmentKeepsInv(s: State, st: Step)
    requires Inv(s) && (st.Tick? || st.ForeignAcquire? || st.ForeignRelease? || st.ConfirmArrive?)
    ensures Inv(Next(s, st))
  {
  }

  lemma StepKeepsInv(s: State, st: Step)
    requires Inv(s)
    ensures Inv(Next(s, st))
  {
    match st
    case Tick(_) => EnvironmentKeepsInv(s, st);
    case ForeignAcquire => EnvironmentKeepsInv(s, st);
    case ForeignRelease => EnvironmentKeepsInv(s, st);
    case PollArrive(p, timeout) => ArriveKeepsInv(s, p, timeout);
    case PollRead(p, fails) => ReadKeepsInv(s, p, fails);
    case PollConsume(p, fault, ttl, signs) => ConsumeKeepsInv(s, p, fault, ttl, signs);
    case PollSubscribe(_, _) => PollerStepKeepsInv(s, st);
    case PollWake(_) => PollerStepKeepsInv(s, st);
    case PollTimeout(_) => PollerStepKeepsInv(s, st);
    case PollCancel(_) => PollerStepKeepsInv(s, st);
    case PollSlept(_) => PollerStepKeepsInv(s, st);
    case ConfirmArrive(_, _) => EnvironmentKeepsInv(s, st);
    case ConfirmRead(c, fails, sigOk) => ReadConfirmerKeepsInv(s, c, fails, sigOk);
    case ConfirmCas(c, fault, ttl) => CasKeepsInv(s, c, fault, ttl);
    case ConfirmGate(c, passes) => GateKeepsInv(s, c, passes);
    case EffectReturn(c, ok) => EffectKeepsInv(s, c, ok);
    case Publish(c, delivered) => PublishKeepsInv(s, c, delivered);
  }

  lemma {:induction false} RunKeepsInv(s: State, steps: seq<Step>)
    requires Inv(s)
    ensures Inv(Run(s, steps))
    decreases |steps|
  {
    if steps != [] {
      StepKeepsInv(s, steps[0]);
      RunKeepsInv(Next(s, steps[0]), steps[1..]);
    }
  }
}
