/** PollStatus as the handlers run it: straight-line code and one polling loop, with
    every other thread free to act before each Redis command. */
module QrPoller {
  import opened Prelude
  import opened QrScripts
  import opened QrProtocol
  import QrProtocolProofs

  /** What one poller can observe of the rest of the system. */
  datatype View = View(ver: Version, entry: Entry, now: nat, subscribed: bool, mailbox: nat)

  datatype EnvStep =
    | EnvTick(ms: nat)
    | EnvConfirm(accountId: int, ttl: nat)
    | EnvConsume(ttl: nat)
    | EnvPublish

  /** A publisher has won the confirm script first, so it cannot publish a pending session. */
  function ApplyEnv(v: View, e: EnvStep): View {
    match e
    case EnvTick(ms) => v.(now := v.now + ms)
    case EnvConfirm(accountId, ttl) => v.(entry := AfterConfirm(v.entry, v.now, ttl, accountId))
    case EnvConsume(ttl) => v.(entry := AfterConsume(v.ver, v.entry, v.now, ttl))
    case EnvPublish =>
      if v.subscribed && v.entry.session.status != Pending then v.(mailbox := v.mailbox + 1) else v
  }

  function RunEnv(v: View, es: seq<EnvStep>): View
    decreases |es|
  {
    if es == [] then v else RunEnv(ApplyEnv(v, es[0]), es[1..])
  }

  function ViewOf(s: State, p: nat): View
    requires p in s.pollers
  {
    View(s.ver, s.entry, s.now, s.pollers[p].subscribed, s.pollers[p].mailbox)
  }

  lemma OtherPollersAreInvisible(s: State, st: Step, q: nat, p: nat)
    requires p in s.pollers && p != q && ByPoller(st, q) && !st.PollConsume?
    ensures p in Next(s, st).pollers && ViewOf(Next(s, st), p) == ViewOf(s, p)
  {
  }

  lemma MostStepsAreInvisible(s: State, st: Step, p: nat)
    requires p in s.pollers && !ByPoller(st, p)
    requires !st.Tick? && !st.PollConsume? && !st.ConfirmCas? && !st.Publish?
    ensures p in Next(s, st).pollers && ViewOf(Next(s, st), p) == ViewOf(s, p)
  {
    match st
    case PollArrive(q, _) => OtherPollersAreInvisible(s, st, q, p);
    case PollRead(q, _) => OtherPollersAreInvisible(s, st, q, p);
    case PollSubscribe(q, _) => OtherPollersAreInvisible(s, st, q, p);
    case PollWake(q) => OtherPollersAreInvisible(s, st, q, p);
    case PollTimeout(q) => OtherPollersAreInvisible(s, st, q, p);
    case PollCancel(q) => OtherPollersAreInvisible(s, st, q, p);
    case PollSlept(q) => OtherPollersAreInvisible(s, st, q, p);
    case ForeignAcquire =>
    case ForeignRelease =>
    case ConfirmArrive(_, _) =>
    case ConfirmRead(_, _, _) =>
    case ConfirmGate(_, _) =>
    case EffectReturn(_, _) =>
  }

  lemma CasIsVisibleAs(s: State, c: nat, fault: WriteFault, ttl: nat, p: nat)
    requires p in s.pollers
    ensures var s' := Next(s, ConfirmCas(c, fault, ttl));
            && p in s'.pollers
            && (ViewOf(s', p) == ViewOf(s, p)
                || (c in s.confirmers && ViewOf(s', p) == ApplyEnv(ViewOf(s, p), EnvConfirm(s.confirmers[c].account, ttl))))
  {
  }

  lemma ConsumeIsVisibleAs(s: State, q: nat, fault: WriteFault, ttl: nat, signs: bool, p: nat)
    requires p in s.pollers && q != p
    ensures var s' := Next(s, PollConsume(q, fault, ttl, signs));
            && p in s'.pollers
            && (ViewOf(s', p) == ViewOf(s, p) || ViewOf(s', p) == ApplyEnv(ViewOf(s, p), EnvConsume(ttl)))
  {
  }

  lemma PublishIsVisibleAs(s: State, c: nat, delivered: bool, p: nat)
    requires QrProtocolProofs.Inv(s) && p in s.pollers
    ensures var s' := Next(s, Publish(c, delivered));
            && p in s'.pollers
            && (ViewOf(s', p) == ViewOf(s, p) || ViewOf(s', p) == ApplyEnv(ViewOf(s, p), EnvPublish))
  {
    if c in s.confirmers {
      assert QrProtocolProofs.ConfirmerOk(c, s.confirmers[c], s.log);
    }
  }

  /** In the protocol, whatever any other thread does is, for poller p, at most one of these steps. */
  lemma OthersAreEnv(s: State, st: Step, p: nat) returns (es: seq<EnvStep>)
    requires QrProtocolProofs.Inv(s) && p in s.pollers && !ByPoller(st, p)
    ensures p in Next(s, st).pollers
    ensures |es| <= 1 && ViewOf(Next(s, st), p) == RunEnv(ViewOf(s, p), es)
  {
    match st {
      case Tick(ms) => es := [EnvTick(ms)];
      case ConfirmCas(c, fault, ttl) =>
        CasIsVisibleAs(s, c, fault, ttl, p);
        es := if c in s.confirmers then [EnvConfirm(s.confirmers[c].account, ttl)] else [];
      case PollConsume(q, fault, ttl, signs) =>
        ConsumeIsVisibleAs(s, q, fault, ttl, signs, p);
        es := [EnvConsume(ttl)];
      case Publish(c, delivered) =>
        PublishIsVisibleAs(s, c, delivered, p);
        es := [EnvPublish];
      case _ =>
        MostStepsAreInvisible(s, st, p);
        return [];
    }
    assert es != [] ==> es[1..] == [] && RunEnv(ViewOf(s, p), es) == ApplyEnv(ViewOf(s, p), es[0]);
    if ViewOf(Next(s, st), p) == ViewOf(s, p) { es := []; }
  }

  /** A message can only be there once the session has left pending. */
  ghost predicate MailOk(v: View) { v.mailbox > 0 ==> v.entry.session.status != Pending }

  /** What the others may do to a poller's view, however many steps they take. */
  ghost predicate Rely(a: View, b: View) {
    && b.ver == a.ver && a.now <= b.now && b.subscribed == a.subscribed && a.mailbox <= b.mailbox
    && b.entry.session.action == a.entry.session.action
    && (a.entry.session.status != Pending ==> b.entry.session.status != Pending
                                              && b.entry.session.accountId == a.entry.session.accountId)
    && (a.entry.session.status == Consumed ==> b.entry == a.entry)
    && (!a.entry.Live(a.now) ==> !b.entry.Live(b.now))
  }

  lemma {:induction false} EnvIsRely(v: View, es: seq<EnvStep>)
    requires MailOk(v)
    ensures MailOk(RunEnv(v, es)) && Rely(v, RunEnv(v, es))
    decreases |es|
  {
    if es != [] {
      var w := ApplyEnv(v, es[0]);
      assert MailOk(w) && Rely(v, w);
      EnvIsRely(w, es[1..]);
    }
  }

  datatype ReadResult = Found(session: Session) | Missing | Failed

  /** Everything outside the handler's control; the k-th observation uses index k. */
  datatype World = World(
    env: nat -> seq<EnvStep>,      // what the others do before it
    readFails: nat -> bool,        // GET returns an error
    cancelled: nat -> bool,        // the request context is done
    consumeFault: WriteFault,
    consumeTtl: nat,
    signs: bool,                   // IssueSessionToken succeeds
    subscribes: bool,              // the subscription is confirmed
    prefersMessage: bool           // which ready case select picks
  )

  /** Why a response was right when it was written. */
  ghost predicate Justified(r: Response, v: View, deadline: nat, w: World, upTo: nat) {
    match r
    case Overloaded => false
    case NotFound => !v.entry.Live(v.now)
    case AlreadyConsumed => v.entry.session.status == Consumed || !v.entry.Live(v.now)
    case StillPending => deadline <= v.now || exists k :: 0 <= k < upTo && w.cancelled(k)
    case ReadFailed => exists k :: 0 <= k < upTo && w.readFails(k)
    case ConsumeFailed => w.consumeFault.Reported()
    case TokenFailed => !w.signs && v.entry.session.status == Consumed && v.entry.session.action == Login
    case Token(a) => v.entry.session.status == Consumed && v.entry.session.action == Login && v.entry.session.accountId == a
    case Reported(a) => v.entry.session.status == Consumed && v.entry.session.action != Login && v.entry.session.accountId == a
  }

  /** What this handler's consume script has to do with its response: a script that won, and
      said so, obliges it to grant; nothing else lets it. */
  ghost predicate Earned(r: Response, won: bool, v: View, w: World) {
    if won && !w.consumeFault.Reported() then
      if v.entry.session.action != Login then r == Reported(v.entry.session.accountId)
      else if w.signs then r == Token(v.entry.session.accountId)
      else r == TokenFailed
    else if won then r == ConsumeFailed
    else !r.Token? && !r.Reported? && !r.TokenFailed?
  }

  ghost predicate Redeemable(v: View) { v.entry.Live(v.now) && v.entry.session.status == Confirmed }

  /** The next read finds a live confirmed session and the script after it does too. */
  ghost predicate GrantedAtOnce(v: View, k: nat, w: World) {
    var atRead := RunEnv(v, w.env(k));
    !w.readFails(k) && Redeemable(atRead) && Redeemable(RunEnv(atRead, w.env(k + 1))) && w.consumeFault.Applied()
  }

  ghost predicate StillOpen(v: View) { v.entry.Live(v.now) && v.entry.session.status == Pending }

  /** A message arrives in time, and the read it causes can redeem the session. */
  ghost predicate GrantedInWait(v: View, k: nat, w: World, deadline: nat) {
    var woken := RunEnv(v, w.env(k));
    && woken.mailbox > 0 && (w.prefersMessage || (woken.now < deadline && !w.cancelled(k)))
    && GrantedAtOnce(woken.(mailbox := woken.mailbox - 1), k + 1, w)
  }

  /** The read after the subscription can redeem the session, or leaves it pending and then
      the wait is granted. */
  ghost predicate GrantedSubscribed(v: View, k: nat, w: World, deadline: nat) {
    || GrantedAtOnce(v, k, w)
    || (var second := RunEnv(v, w.env(k));
        !w.readFails(k) && StillOpen(second) && second.now < deadline && GrantedInWait(second, k + 1, w, deadline))
  }

  /** The first read can redeem the session, or leaves it pending and then the rest is granted. */
  ghost predicate GrantedSlot(v: View, k: nat, w: World, deadline: nat) {
    || GrantedAtOnce(v, k, w)
    || (var first := RunEnv(v, w.env(k));
        !w.readFails(k) && StillOpen(first) && w.subscribes
        && GrantedSubscribed(RunEnv(first, w.env(k + 1)).(subscribed := true), k + 2, w, deadline))
  }

  class PollHandler {
    const cap: nat
    const world: World
    var view: View
    var seen: nat                   // observations so far
    var inflight: nat               // poll slots taken
    var responses: seq<Response>
    var consumed: nat               // consume scripts of this handler that returned 1

    constructor (cap: nat, world: World, view: View, inflight: nat)
      ensures this.cap == cap && this.world == world && this.view == view && this.inflight == inflight
      ensures seen == 0 && responses == [] && consumed == 0
    {
      this.cap := cap;
      this.world := world;
      this.view := view;
      this.inflight := inflight;
      seen, responses, consumed := 0, [], 0;
    }

    /** The others run for a while. */
    method Interfere()
      requires MailOk(view)
      modifies this`view, this`seen
      ensures view == RunEnv(old(view), world.env(old(seen))) && seen == old(seen) + 1
      ensures MailOk(view) && Rely(old(view), view)
    {
      EnvIsRely(view, world.env(seen));
      view := RunEnv(view, world.env(seen));
      seen := seen + 1;
    }

    method ReadSession() returns (r: ReadResult)
      requires MailOk(view)
      modifies this`view, this`seen
      ensures MailOk(view) && Rely(old(view), view) && seen == old(seen) + 1
      ensures view == RunEnv(old(view), world.env(old(seen)))
      ensures r == if world.readFails(old(seen)) then Failed
                   else if !view.entry.Live(view.now) then Missing else Found(view.entry.session)
    {
      var k := seen;
      Interfere();
      if world.readFails(k) { return Failed; }
      if !view.entry.Live(view.now) { return Missing; }
      return Found(view.entry.session);
    }

    method Respond(r: Response)
      modifies this`responses
      ensures responses == old(responses) + [r]
    {
      responses := responses + [r];
    }

    /** writePollResult: answers unless the session it was given is pending. */
    method WritePollResult(read: ReadResult, ghost deadline: nat) returns (handled: bool)
      requires MailOk(view)
      requires read.Found? && read.session.status != Pending ==>
                 && view.entry.session.status != Pending
                 && read.session.action == view.entry.session.action
                 && read.session.accountId == view.entry.session.accountId
                 && (read.session.status == Consumed ==> view.entry.session.status == Consumed)
      requires read.Missing? ==> !view.entry.Live(view.now)
      requires read.Failed? ==> seen > 0 && world.readFails(seen - 1)
      modifies this`view, this`seen, this`responses, this`consumed
      ensures MailOk(view) && Rely(old(view), view)
      ensures handled <==> !read.Found? || read.session.status != Pending
      ensures !handled ==> responses == old(responses) && view == old(view) && seen == old(seen) && consumed == old(consumed)
      ensures handled ==> exists r :: responses == old(responses) + [r] && Justified(r, view, deadline, world, seen)
                                      && Earned(r, consumed == old(consumed) + 1, view, world)
      ensures read.Missing? ==> responses == old(responses) + [NotFound]
      ensures read.Failed? ==> responses == old(responses) + [ReadFailed]
      ensures read.Found? && read.session.status == Consumed ==> responses == old(responses) + [AlreadyConsumed]
      // the script runs exactly for a session read as confirmed, and wins exactly if it still is
      ensures read.Found? && read.session.status == Confirmed ==>
                (consumed == old(consumed) + 1 <==> Redeemable(RunEnv(old(view), world.env(old(seen)))) && world.consumeFault.Applied())
      ensures !(read.Found? && read.session.status == Confirmed) ==> consumed == old(consumed)
      ensures old(consumed) <= consumed <= old(consumed) + 1
    {
      match read {
        case Missing =>
          Respond(NotFound);
          return true;
        case Failed =>
          Respond(ReadFailed);
          return true;
        case Found(session) =>
          match session.status {
            case Confirmed =>
              Interfere();
              var won := view.entry.Live(view.now) && view.entry.session.status == Confirmed && world.consumeFault.Applied();
              if won {
                view := view.(entry := AfterConsume(view.ver, view.entry, view.now, world.consumeTtl));
                consumed := consumed + 1;
              }
              if world.consumeFault.Reported() {
                Respond(ConsumeFailed);
                return true;
              }
              if !won {
                Respond(AlreadyConsumed);
                return true;
              }
              if session.action != Login {
                Respond(Reported(session.accountId));
              } else if world.signs {
                Respond(Token(session.accountId));
              } else {
                Respond(TokenFailed);
              }
              return true;
            case Consumed =>
              Respond(AlreadyConsumed);
              return true;
            case Pending =>
              return false;
          }
      }
    }

    /** The one-second polling loop: v1's whole PollStatus, and v2's fallback when the
        subscription fails. They differ in how the deadline is compared. */
    method PollingLoop(deadline: nat)
      requires MailOk(view)
      modifies this`view, this`seen, this`responses, this`consumed
      ensures exists r :: responses == old(responses) + [r] && Justified(r, view, deadline, world, seen)
                          && Earned(r, consumed == old(consumed) + 1, view, world)
      ensures old(consumed) <= consumed <= old(consumed) + 1
      ensures old(GrantedAtOnce(view, seen, world)) ==> consumed == old(consumed) + 1
    {
      while true
        invariant MailOk(view) && responses == old(responses) && consumed == old(consumed)
        invariant (view == old(view) && seen == old(seen)) || !old(GrantedAtOnce(view, seen, world))
        decreases if deadline < view.now then 0 else deadline - view.now + 1
      {
        var session := ReadSession();
        var handled := WritePollResult(session, deadline);
        if handled { return; }
        if (if view.ver == V1 then deadline < view.now else deadline <= view.now) {
          Respond(StillPending);
          return;
        }
        var k := seen;
        Interfere();
        if world.cancelled(k) {
          Respond(StillPending);
          return;
        }
        view := view.(now := view.now + SECOND);
      }
    }

    /** v2: take a slot or turn the client away; read, subscribe, read again, wait. */
    method PollStatus(timeout: nat)
      requires MailOk(view) && !view.subscribed && inflight <= cap
      modifies this`view, this`seen, this`responses, this`inflight, this`consumed
      ensures inflight == old(inflight) && !view.subscribed
      ensures old(inflight) == cap ==> responses == old(responses) + [Overloaded] && view == old(view)
      ensures old(inflight) < cap ==>
                exists r :: responses == old(responses) + [r]
                          && Justified(r, view, old(view.now) + timeout, world, seen)
                          && Earned(r, consumed == old(consumed) + 1, view, world)
      ensures old(consumed) <= consumed <= old(consumed) + 1
      ensures old(inflight) < cap && old(GrantedSlot(view, seen, world, view.now + timeout)) ==>
                consumed == old(consumed) + 1
    {
      if inflight == cap {
        Respond(Overloaded);
        return;
      }
      inflight := inflight + 1;
      PollWithSlot(view.now + timeout);
      view := view.(subscribed := false); // the deferred Close, then the deferred slot release
      inflight := inflight - 1;
    }

    method PollWithSlot(deadline: nat)
      requires MailOk(view) && !view.subscribed
      modifies this`view, this`seen, this`responses, this`consumed
      ensures exists r :: responses == old(responses) + [r]
                          && Justified(r, view, deadline, world, seen)
                          && Earned(r, consumed == old(consumed) + 1, view, world)
      ensures old(consumed) <= consumed <= old(consumed) + 1
      ensures old(GrantedSlot(view, seen, world, deadline)) ==> consumed == old(consumed) + 1
    {
      var session := ReadSession();
      var handled := WritePollResult(session, deadline);
      if handled { return; }

      Interfere();
      if !world.subscribes {
        PollingLoop(deadline);
        return;
      }
      view := view.(subscribed := true);
      PollSubscribed(deadline);
    }

    /** Read again, in case the confirm came before the subscription, then wait. */
    method PollSubscribed(deadline: nat)
      requires MailOk(view)
      modifies this`view, this`seen, this`responses, this`consumed
      ensures exists r :: responses == old(responses) + [r]
                          && Justified(r, view, deadline, world, seen)
                          && Earned(r, consumed == old(consumed) + 1, view, world)
      ensures old(consumed) <= consumed <= old(consumed) + 1
      ensures old(GrantedSubscribed(view, seen, world, deadline)) ==> consumed == old(consumed) + 1
    {
      var session := ReadSession();
      var handled := WritePollResult(session, deadline);
      if handled { return; }

      if deadline <= view.now {
        Respond(StillPending);
        return;
      }
      AwaitMessage(deadline);
    }

    /** The select over message, deadline and cancellation. */
    method AwaitMessage(deadline: nat)
      requires MailOk(view)
      modifies this`view, this`seen, this`responses, this`consumed
      ensures exists r :: responses == old(responses) + [r]
                          && Justified(r, view, deadline, world, seen)
                          && Earned(r, consumed == old(consumed) + 1, view, world)
      ensures old(consumed) <= consumed <= old(consumed) + 1
      ensures old(GrantedInWait(view, seen, world, deadline)) ==> consumed == old(consumed) + 1
    {
      var k := seen;
      Interfere();
      if view.mailbox > 0 && (world.prefersMessage || (view.now < deadline && !world.cancelled(k))) {
        view := view.(mailbox := view.mailbox - 1);
        var session := ReadSession();
        var handled := WritePollResult(session, deadline); // the verdict is not looked at
      } else if world.cancelled(k) {
        Respond(StillPending);
      } else {
        if view.now < deadline { view := view.(now := deadline); } // nothing else was ready: the timer fires
        Respond(StillPending);
      }
    }
  }
}
