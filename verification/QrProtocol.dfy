/** One QR session shared by any number of confirmers and long-pollers, as a
    transition system. Every step is one atomic action of one thread (a Redis
    command, a script, a channel operation, a side effect starting or returning)
    or of the environment (time, other sessions taking poll slots). A thread that
    is never scheduled again has crashed. A step whose guard fails changes nothing. */
module QrProtocol {
  import opened Prelude
  import opened QrScripts

  datatype Response =
    | Overloaded | NotFound | ReadFailed | ConsumeFailed | AlreadyConsumed
    | StillPending | TokenFailed | Token(account: int) | Reported(account: int)

  datatype PollPc =
    | FirstRead | Subscribing | SecondRead | Waiting | WokenRead
    | FallbackRead | FallbackSleep | Consuming(seen: Session) | Finished

  datatype Poller = Poller(
    pc: PollPc,
    deadline: nat,
    subscribed: bool,
    mailbox: nat,             // messages the channel has delivered and the poller has not taken
    responses: seq<Response>,
    blockedAtConfirm: bool    // was already waiting on the channel when the confirm script won
  )

  datatype ConfirmReply =
    | KeyMissing | LoadFailed | BadSignature | InvalidState | CasFailed | Accepted | Refused | EffectFailed

  datatype ConfirmPc = Reading | Deciding | Won | InEffect | Publishing | Answered

  datatype Confirmer = Confirmer(pc: ConfirmPc, account: int, replies: seq<ConfirmReply>)

  datatype Win = Win(confirmer: nat, account: int, at: nat)

  /** What has happened so far. */
  datatype Log = Log(
    wins: seq<Win>,       // confirm scripts that returned 1
    consumes: seq<nat>,   // consume scripts that returned 1, by poller
    tokens: seq<int>,     // login tokens issued, by account
    effects: seq<int>,    // AddMember or ExecuteDelegate calls, by confirming account
    returned: nat,        // how many of those calls have returned
    published: nat        // PUBLISH commands that reached Redis
  )

  datatype State = State(
    ver: Version,
    cap: nat,                  // capacity of the poll semaphore
    foreign: nat,              // slots held by pollers of other sessions
    holders: set<nat>,         // slots held by pollers of this session
    created: nat,
    now: nat,
    entry: Entry,
    pollers: map<nat, Poller>,
    confirmers: map<nat, Confirmer>,
    log: Log
  )

  datatype Step =
    | Tick(ms: nat)
    | ForeignAcquire
    | ForeignRelease
    | PollArrive(p: nat, timeout: nat)
    | PollRead(p: nat, fails: bool)
    | PollSubscribe(p: nat, live: bool)
    | PollWake(p: nat)
    | PollTimeout(p: nat)
    | PollCancel(p: nat)
    | PollSlept(p: nat)
    | PollConsume(p: nat, fault: WriteFault, ttl: nat, signs: bool)
    | ConfirmArrive(c: nat, account: int)
    | ConfirmRead(c: nat, fails: bool, sigOk: bool)
    | ConfirmCas(c: nat, fault: WriteFault, ttl: nat)
    | ConfirmGate(c: nat, passes: bool)
    | EffectReturn(c: nat, ok: bool)
    | Publish(c: nat, delivered: bool)

  /** The steps of poller p itself. */
  predicate ByPoller(st: Step, p: nat) {
    match st
    case PollArrive(q, _) => q == p
    case PollRead(q, _) => q == p
    case PollSubscribe(q, _) => q == p
    case PollWake(q) => q == p
    case PollTimeout(q) => q == p
    case PollCancel(q) => q == p
    case PollSlept(q) => q == p
    case PollConsume(q, _, _, _) => q == p
    case _ => false
  }

  ghost predicate Init(s: State) {
    && (s.ver == V1 ==> s.entry.session.action == Login)
    && s.now == s.created && s.foreign <= s.cap && s.holders == {}
    && s.entry.session.status == Pending && s.entry.expiry == s.created + SESSION_TTL
    && s.pollers == map[] && s.confirmers == map[]
    && s.log == Log([], [], [], [], 0, 0)
  }

  // ---- Long-pollers ----

  /** The deferred cleanup: the subscription is closed and the slot released. */
  function Leave(s: State, p: nat, responses: seq<Response>): State
    requires p in s.pollers
  {
    s.(pollers := s.pollers[p := s.pollers[p].(pc := Finished, subscribed := false, responses := responses)],
       holders := s.holders - {p})
  }

  function Answer(s: State, p: nat, r: Response): State
    requires p in s.pollers
  {
    Leave(s, p, s.pollers[p].responses + [r])
  }

  function Goto(s: State, p: nat, pc: PollPc): State
    requires p in s.pollers
  {
    s.(pollers := s.pollers[p := s.pollers[p].(pc := pc)])
  }

  /** v2 takes a slot without blocking, or is turned away; v1 has no semaphore
      and no subscription and goes straight to its polling loop. */
  function ArrivePoller(s: State, p: nat, timeout: nat): State {
    var newcomer := Poller(FirstRead, s.now + timeout, false, 0, [], false);
    if p in s.pollers then s
    else match s.ver
      case V1 => s.(pollers := s.pollers[p := newcomer.(pc := FallbackRead)])
      case V2 =>
        if |s.holders| + s.foreign < s.cap then
          s.(pollers := s.pollers[p := newcomer], holders := s.holders + {p})
        else
          s.(pollers := s.pollers[p := newcomer.(pc := Finished, responses := [Overloaded])])
  }

  predicate ReadsNow(pc: PollPc) { pc.FirstRead? || pc.SecondRead? || pc.WokenRead? || pc.FallbackRead? }

  /** GET, then the part of writePollResult that precedes the consume script. The
      read after a wake-up ignores writePollResult's verdict: were the session
      still pending there, the poller would leave without any response. */
  function ReadPoller(s: State, p: nat, fails: bool): State {
    if p !in s.pollers || !ReadsNow(s.pollers[p].pc) then s
    else
      var q := s.pollers[p];
      if fails then Answer(s, p, ReadFailed)
      else if !s.entry.Live(s.now) then Answer(s, p, NotFound)
      else match s.entry.session.status
        case Confirmed => Goto(s, p, Consuming(s.entry.session))
        case Consumed => Answer(s, p, AlreadyConsumed)
        case Pending =>
          match q.pc
          case FirstRead => Goto(s, p, Subscribing)
          case SecondRead => if q.deadline <= s.now then Answer(s, p, StillPending) else Goto(s, p, Waiting)
          case WokenRead => Leave(s, p, q.responses)
          case _ =>
            if (if s.ver == V1 then q.deadline < s.now else q.deadline <= s.now)
            then Answer(s, p, StillPending) else Goto(s, p, FallbackSleep)
  }

  function SubscribePoller(s: State, p: nat, live: bool): State {
    if p !in s.pollers || !s.pollers[p].pc.Subscribing? then s
    else if live then s.(pollers := s.pollers[p := s.pollers[p].(pc := SecondRead, subscribed := true)])
    else Goto(s, p, FallbackRead)
  }

  function WakePoller(s: State, p: nat): State {
    if p !in s.pollers || !s.pollers[p].pc.Waiting? || s.pollers[p].mailbox == 0 then s
    else s.(pollers := s.pollers[p := s.pollers[p].(pc := WokenRead, mailbox := s.pollers[p].mailbox - 1)])
  }

  /** The consume script and, if it won, the response built from the snapshot that
      was read before the script ran. */
  function ConsumePoller(s: State, p: nat, fault: WriteFault, ttl: nat, signs: bool): State {
    if p !in s.pollers || !s.pollers[p].pc.Consuming? || !TtlReplyNow(s, ttl) then s
    else
      var seen := s.pollers[p].pc.seen;
      var won := s.entry.Live(s.now) && s.entry.session.status == Confirmed;
      if !fault.Applied() then Answer(s, p, ConsumeFailed)
      else
        var s' := s.(entry := AfterConsume(s.ver, s.entry, s.now, ttl),
                     log := s.log.(consumes := s.log.consumes + if won then [p] else []));
        if fault.Reported() then Answer(s', p, ConsumeFailed)
        else if !won then Answer(s', p, AlreadyConsumed)
        else if seen.action != Login then Answer(s', p, Reported(seen.accountId))
        else if !signs then Answer(s', p, TokenFailed)
        else Answer(s'.(log := s'.log.(tokens := s'.log.tokens + [seen.accountId])), p, Token(seen.accountId))
  }

  predicate TtlReplyNow(s: State, ttl: nat) {
    s.entry.Live(s.now) ==> TtlReply(s.entry.expiry - s.now, ttl)
  }

  // ---- Confirmers ----

  function Reply(s: State, c: nat, pc: ConfirmPc, r: ConfirmReply): State
    requires c in s.confirmers
  {
    s.(confirmers := s.confirmers[c := s.confirmers[c].(pc := pc, replies := s.confirmers[c].replies + [r])])
  }

  function Advance(s: State, c: nat, pc: ConfirmPc): State
    requires c in s.confirmers
  {
    s.(confirmers := s.confirmers[c := s.confirmers[c].(pc := pc)])
  }

  /** GET and the checks before the script: signature first, then status. v1 has no
      signature. */
  function ReadConfirmer(s: State, c: nat, fails: bool, sigOk: bool): State {
    if c !in s.confirmers || !s.confirmers[c].pc.Reading? then s
    else if fails then Reply(s, c, Answered, LoadFailed)
    else if !s.entry.Live(s.now) then Reply(s, c, Answered, KeyMissing)
    else if s.ver == V2 && !sigOk then Reply(s, c, Answered, BadSignature)
    else if s.entry.session.status != Pending then Reply(s, c, Answered, InvalidState)
    else Advance(s, c, Deciding)
  }

  function MarkBlocked(pollers: map<nat, Poller>): map<nat, Poller> {
    map p | p in pollers :: if pollers[p].pc.Waiting? then pollers[p].(blockedAtConfirm := true) else pollers[p]
  }

  function CasConfirmer(s: State, c: nat, fault: WriteFault, ttl: nat): State {
    if c !in s.confirmers || !s.confirmers[c].pc.Deciding? || !TtlReplyNow(s, ttl) then s
    else if !fault.Applied() then Reply(s, c, Answered, CasFailed)
    else if !s.entry.Live(s.now) || s.entry.session.status != Pending then
      Reply(s, c, Answered, if fault.Reported() then CasFailed else InvalidState)
    else
      var account := s.confirmers[c].account;
      var s' := s.(entry := AfterConfirm(s.entry, s.now, ttl, account),
                   pollers := MarkBlocked(s.pollers),
                   log := s.log.(wins := s.log.wins + [Win(c, account, s.now)]));
      if fault.Reported() then Reply(s', c, Answered, CasFailed) else Advance(s', c, Won)
  }

  /** After the script won: login answers at once; join_org and delegate first pass
      their own checks and then call AddMember or ExecuteDelegate. */
  function GateConfirmer(s: State, c: nat, passes: bool): State {
    if c !in s.confirmers || !s.confirmers[c].pc.Won? then s
    else if s.entry.session.action == Login then
      Reply(s, c, if s.ver == V1 then Answered else Publishing, Accepted)
    else if !passes then Reply(s, c, Publishing, Refused)
    else
      Advance(s, c, InEffect).(log := s.log.(effects := s.log.effects + [s.confirmers[c].account]))
  }

  function EffectReturned(s: State, c: nat, ok: bool): State {
    if c !in s.confirmers || !s.confirmers[c].pc.InEffect? then s
    else Reply(s, c, Publishing, if ok then Accepted else EffectFailed)
           .(log := s.log.(returned := s.log.returned + 1))
  }

  function Deliver(pollers: map<nat, Poller>): map<nat, Poller> {
    map p | p in pollers ::
      if pollers[p].subscribed then pollers[p].(mailbox := pollers[p].mailbox + 1) else pollers[p]
  }

  /** The deferred PUBLISH: it runs after the side effect and reaches every live subscription. */
  function PublishConfirmed(s: State, c: nat, delivered: bool): State {
    if c !in s.confirmers || !s.confirmers[c].pc.Publishing? then s
    else if !delivered then Advance(s, c, Answered)
    else Advance(s, c, Answered).(pollers := Deliver(s.pollers),
                                  log := s.log.(published := s.log.published + 1))
  }

  function Next(s: State, st: Step): State {
    match st
    case Tick(ms) => s.(now := s.now + ms)
    case ForeignAcquire => if |s.holders| + s.foreign < s.cap then s.(foreign := s.foreign + 1) else s
    case ForeignRelease => if s.foreign > 0 then s.(foreign := s.foreign - 1) else s
    case PollArrive(p, timeout) => ArrivePoller(s, p, timeout)
    case PollRead(p, fails) => ReadPoller(s, p, fails)
    case PollSubscribe(p, live) => SubscribePoller(s, p, live)
    case PollWake(p) => WakePoller(s, p)
    case PollTimeout(p) =>
      if p in s.pollers && s.pollers[p].pc.Waiting? && s.pollers[p].deadline <= s.now
      then Answer(s, p, StillPending) else s
    case PollCancel(p) =>
      if p in s.pollers && (s.pollers[p].pc.Waiting? || s.pollers[p].pc.FallbackSleep?)
      then Answer(s, p, StillPending) else s
    case PollSlept(p) =>
      if p in s.pollers && s.pollers[p].pc.FallbackSleep? then Goto(s, p, FallbackRead) else s
    case PollConsume(p, fault, ttl, signs) => ConsumePoller(s, p, fault, ttl, signs)
    case ConfirmArrive(c, account) =>
      if c in s.confirmers then s
      else s.(confirmers := s.confirmers[c := Confirmer(Reading, account, [])])
    case ConfirmRead(c, fails, sigOk) => ReadConfirmer(s, c, fails, sigOk)
    case ConfirmCas(c, fault, ttl) => CasConfirmer(s, c, fault, ttl)
    case ConfirmGate(c, passes) => GateConfirmer(s, c, passes)
    case EffectReturn(c, ok) => EffectReturned(s, c, ok)
    case Publish(c, delivered) => PublishConfirmed(s, c, delivered)
  }

  function Run(s: State, steps: seq<Step>): State
    decreases |steps|
  {
    if steps == [] then s else Run(Next(s, steps[0]), steps[1..])
  }
}
