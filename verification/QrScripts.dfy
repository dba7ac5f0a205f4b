/** The Redis record of one QR session and the Lua scripts that rewrite it. */
module QrScripts {
  /** v1 is the login-only handler, v2 the multi-action one. They share the record
      and the confirm script and differ in the consume script's TTL. */
  datatype Version = V1 | V2

  datatype Status = Pending | Confirmed | Consumed
  datatype Action = Login | JoinOrg | Delegate

  datatype Session = Session(action: Action, status: Status, accountId: int, createdBy: int)

  /** A key holds its entry until `expiry`; from then on GET finds nothing. */
  datatype Entry = Entry(session: Session, expiry: nat) {
    predicate Live(now: nat) { now < expiry }
  }

  // Milliseconds.
  const SESSION_TTL: nat := 300_000
  const CONSUMED_TTL: nat := 60_000
  const SECOND: nat := 1_000

  /** TTL replies in whole seconds; whichever way Redis rounds, the reply is less
      than one second away from the time that remains. */
  predicate TtlReply(remaining: nat, seconds: nat) {
    seconds * SECOND < remaining + SECOND && remaining < seconds * SECOND + SECOND
  }

  /** SET ... EX: a positive TTL reply is kept, a zero reply becomes `fallback`. */
  function RenewedExpiry(now: nat, seconds: nat, fallback: nat): nat {
    now + if seconds > 0 then seconds * SECOND else fallback
  }

  function AfterConfirm(e: Entry, now: nat, seconds: nat, accountId: int): Entry {
    if e.Live(now) && e.session.status == Pending then
      Entry(e.session.(status := Confirmed, accountId := accountId), RenewedExpiry(now, seconds, SESSION_TTL))
    else e
  }

  function AfterConsume(ver: Version, e: Entry, now: nat, seconds: nat): Entry {
    if e.Live(now) && e.session.status == Confirmed then
      Entry(e.session.(status := Consumed),
            match ver
            case V1 => RenewedExpiry(now, seconds, CONSUMED_TTL)
            case V2 => now + CONSUMED_TTL)
    else e
  }

  /** The key itself: Redis runs each script as one atomic step. */
  class SessionKey {
    var entry: Entry
    var now: nat

    constructor (session: Session, at: nat)
      ensures now == at && entry == Entry(session, at + SESSION_TTL)
    {
      entry := Entry(session, at + SESSION_TTL);
      now := at;
    }

    /** The confirm script; returns whether it flipped the session. */
    method TryConfirm(accountId: int, ttl: nat) returns (won: bool)
      modifies this`entry
      ensures won <==> old(entry).Live(now) && old(entry).session.status == Pending
      ensures entry == AfterConfirm(old(entry), now, ttl, accountId)
    {
      if !entry.Live(now) { return false; }
      var state := entry.session;
      if state.status != Pending { return false; }
      state := state.(status := Confirmed);
      state := state.(accountId := accountId);
      if ttl > 0 {
        entry := Entry(state, now + ttl * SECOND);
      } else {
        entry := Entry(state, now + SESSION_TTL);
      }
      return true;
    }

    /** The consume script of either version. */
    method TryConsume(ver: Version, ttl: nat) returns (consumed: bool)
      modifies this`entry
      ensures consumed <==> old(entry).Live(now) && old(entry).session.status == Confirmed
      ensures entry == AfterConsume(ver, old(entry), now, ttl)
    {
      if !entry.Live(now) { return false; }
      var state := entry.session;
      if state.status != Confirmed { return false; }
      state := state.(status := Consumed);
      if ver == V2 {
        entry := Entry(state, now + CONSUMED_TTL);
      } else if ttl > 0 {
        entry := Entry(state, now + ttl * SECOND);
      } else {
        entry := Entry(state, now + CONSUMED_TTL);
      }
      return true;
    }
  }
}
