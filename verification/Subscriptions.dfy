/** The subscriptions of one account to one product, by calls that do not interleave. */
module Subscriptions {
  import opened Prelude
  import opened Entitlements
  import opened BillingDates
  import Calendar

  datatype Status = Pending | Trial | Active | Grace | Expired | Cancelled | Suspended
  datatype Sub = Sub(status: Status, planID: int, expires: Option<Time>, autoRenew: bool)

  predicate IsLive(s: Status) { s.Active? || s.Grace? || s.Trial? }

  /** The query behind GetActive: the live row with the lowest id. */
  function LiveIndex(subs: seq<Sub>): (r: Option<nat>)
    ensures r.Some? ==> r.value < |subs| && IsLive(subs[r.value].status)
    ensures r.None? ==> forall i :: 0 <= i < |subs| ==> !IsLive(subs[i].status)
  {
    if subs == [] then None
    else
      var earlier := LiveIndex(subs[..|subs| - 1]);
      if earlier.Some? then earlier else if IsLive(subs[|subs| - 1].status) then Some(|subs| - 1) else None
  }

  ghost predicate OneLive(subs: seq<Sub>) {
    forall i, j :: 0 <= i < |subs| && 0 <= j < |subs| && IsLive(subs[i].status) && IsLive(subs[j].status) ==> i == j
  }

  function SetStatus(subs: seq<Sub>, i: nat, status: Status): seq<Sub>
    requires i < |subs|
  {
    subs[i := subs[i].(status := status)]
  }

  /** A service call with the outcomes of its store calls, as one step. */
  datatype Call =
    | Activate(planID: int, planFound: bool, lookupFails: bool, expire: WriteFault, create: WriteFault, expires: Option<Time>)
    | Expire(id: nat, lookupFails: bool, update: WriteFault)
    | EndGrace(id: nat, lookupFails: bool, update: WriteFault)
    | Cancel(lookupFails: bool, update: WriteFault)

  /** The first of Activate's writes: the live row, if any, is expired. */
  function AfterExpiringOld(subs: seq<Sub>, expire: WriteFault): seq<Sub> {
    var live := LiveIndex(subs);
    if live.Some? && expire.Applied() then SetStatus(subs, live.value, Expired) else subs
  }

  function Effect(subs: seq<Sub>, c: Call): seq<Sub> {
    match c
    case Activate(planID, planFound, lookupFails, expire, create, expires) =>
      if !planFound || lookupFails then subs
      else
        var subs1 := AfterExpiringOld(subs, expire);
        if (LiveIndex(subs).Some? && expire.Reported()) || create.FailedBefore? then subs1
        else subs1 + [Sub(Active, planID, expires, false)]
    case Expire(id, lookupFails, update) =>
      if lookupFails || id >= |subs| || !subs[id].status.Active? || update.FailedBefore? then subs
      else SetStatus(subs, id, Grace)
    case EndGrace(id, lookupFails, update) =>
      if lookupFails || id >= |subs| || !subs[id].status.Grace? || update.FailedBefore? then subs
      else SetStatus(subs, id, Expired)
    case Cancel(lookupFails, update) =>
      var live := LiveIndex(subs);
      if lookupFails || live.None? || update.FailedBefore? then subs
      else subs[live.value := subs[live.value].(status := Cancelled, autoRenew := false)]
  }

  function EffectOfAll(subs: seq<Sub>, calls: seq<Call>): seq<Sub>
    decreases |calls|
  {
    if calls == [] then subs else EffectOfAll(Effect(subs, calls[0]), calls[1..])
  }

  // ---- At most one live subscription ----

  lemma CallKeepsOneLive(subs: seq<Sub>, c: Call)
    requires OneLive(subs)
    ensures OneLive(Effect(subs, c))
  {
  }

  /** On every run of the service, whatever store calls fail, at most one subscription of the
      account to the product is live. */
  lemma {:induction false} OneLiveOnEveryRun(subs: seq<Sub>, calls: seq<Call>)
    requires OneLive(subs)
    ensures OneLive(EffectOfAll(subs, calls))
    decreases |calls|
  {
    if calls != [] {
      CallKeepsOneLive(subs, calls[0]);
      OneLiveOnEveryRun(Effect(subs, calls[0]), calls[1..]);
    }
  }

  // ---- Status paths ----

  /** How far a status is from the end of its life. */
  function Distance(s: Status): nat {
    match s
    case Active => 2
    case Grace => 1
    case Trial => 1
    case Pending => 0
    case Expired => 0
    case Cancelled => 0
    case Suspended => 0
  }

  predicate Moves(a: Status, b: Status) {
    || (a.Active? && (b.Grace? || b.Expired? || b.Cancelled?))
    || ((a.Grace? || a.Trial?) && (b.Expired? || b.Cancelled?))
  }

  lemma CallMoves(subs: seq<Sub>, c: Call, i: nat)
    requires i < |subs|
    ensures |subs| <= |Effect(subs, c)| <= |subs| + 1
    ensures var s' := Effect(subs, c)[i].status; s' == subs[i].status || Moves(subs[i].status, s')
    ensures Effect(subs, c)[i].planID == subs[i].planID && Effect(subs, c)[i].expires == subs[i].expires
  {
  }

  /** How often the status of one row changes over a run. */
  function Changes(subs: seq<Sub>, calls: seq<Call>, i: nat): nat
    requires i < |subs|
    decreases |calls|
  {
    if calls == [] then 0
    else
      CallMoves(subs, calls[0], i);
      var next := Effect(subs, calls[0]);
      Changes(next, calls[1..], i) + (if next[i].status != subs[i].status then 1 else 0)
  }

  /** A subscription changes status at most twice, each time from a live status, and only
      active, grace, expired / active, expired / active, cancelled / active, grace, cancelled
      and their ends occur; once it is not live it never changes again. */
  lemma {:induction false} AtMostTwoChanges(subs: seq<Sub>, calls: seq<Call>, i: nat)
    requires i < |subs|
    ensures i < |EffectOfAll(subs, calls)|
    ensures Changes(subs, calls, i) + Distance(EffectOfAll(subs, calls)[i].status) <= Distance(subs[i].status) <= 2
    ensures !IsLive(subs[i].status) ==> EffectOfAll(subs, calls)[i].status == subs[i].status
    decreases |calls|
  {
    if calls != [] {
      CallMoves(subs, calls[0], i);
      AtMostTwoChanges(Effect(subs, calls[0]), calls[1..], i);
    }
  }

  // ---- Activate is not atomic ----

  /** A call of Activate that finds its plan is a no-op exactly when the first write it had
      to make took no effect. */
  lemma ActivateIsNoOpIff(subs: seq<Sub>, planID: int, expire: WriteFault, create: WriteFault, expires: Option<Time>)
    ensures Effect(subs, Activate(planID, true, false, expire, create, expires)) == subs <==>
      if LiveIndex(subs).Some? then expire.FailedBefore? else create.FailedBefore?
  {
    var live, subs1 := LiveIndex(subs), AfterExpiringOld(subs, expire);
    if live.None? || expire.FailedBefore? {
      assert subs1 == subs;
    } else {
      assert subs1[live.value].status != subs[live.value].status;
      assert Effect(subs, Activate(planID, true, false, expire, create, expires))[live.value] == subs1[live.value];
    }
  }

  lemma NoneLiveOnceExpired(subs: seq<Sub>)
    requires OneLive(subs)
    ensures LiveIndex(AfterExpiringOld(subs, NoFault)).None?
  {
    var subs1 := AfterExpiringOld(subs, NoFault);
    forall i | 0 <= i < |subs1| ensures !IsLive(subs1[i].status) {
      assert LiveIndex(subs).Some? ==> IsLive(subs[LiveIndex(subs).value].status);
    }
  }

  /** A successful Activate leaves exactly one live subscription, the new one; when its second
      write fails after the first, the account has lost the old one and has none. */
  lemma ActivateReplaces(subs: seq<Sub>, planID: int, create: WriteFault, expires: Option<Time>)
    requires OneLive(subs)
    ensures LiveIndex(Effect(subs, Activate(planID, true, false, NoFault, create, expires)))
            == if create.FailedBefore? then None else Some(|subs|)
    ensures create.Applied() ==>
      Effect(subs, Activate(planID, true, false, NoFault, create, expires))[|subs|] == Sub(Active, planID, expires, false)
  {
    NoneLiveOnceExpired(subs);
    var subs1 := AfterExpiringOld(subs, NoFault);
    var s' := subs1 + [Sub(Active, planID, expires, false)];
    assert s'[..|subs|] == subs1;
    FirstLive(s', |subs|);
  }

  // ---- The service over the store and the entitlements ----

  class SubscriptionService {
    var subs: seq<Sub>
    const ents: EntitlementService

    constructor (ents: EntitlementService)
      ensures this.ents == ents && subs == []
    {
      this.ents, subs := ents, [];
    }

    method GetActive() returns (id: Option<nat>)
      ensures id == LiveIndex(subs)
    {
      var i := 0;
      while i < |subs|
        invariant 0 <= i <= |subs|
        invariant LiveIndex(subs[..i]).None?
      {
        assert subs[..i + 1][..i] == subs[..i];
        if IsLive(subs[i].status) {
          FirstLive(subs, i);
          return Some(i);
        }
        i := i + 1;
      }
      assert subs[..i] == subs;
      id := None;
    }

    /** Expire the old one, create the new one, then sync; a failing sync is not an error.
        `subID` stands for the new row's id, in decimal. */
    method Activate(planID: int, plan: Option<Plan>, parses: bool, lookupFails: bool, expire: WriteFault, create: WriteFault,
                    now: Time, subID: string, clock: Time -> int, sync: string -> WriteFault, cacheDown: bool) returns (ok: bool)
      requires Calendar.Valid(now.date)
      modifies this`subs, ents`rows, ents`cache
      ensures plan.None? ==> subs == old(subs) && !ok && ents.rows == old(ents.rows)
      ensures plan.Some? ==> exists expires: Option<Time> ::
        && (expires.None? <==> plan.value.cycle == FOREVER || plan.value.cycle == ONE_TIME)
        && (expires.Some? ==> EndsOn(now.date, plan.value.cycle, expires.value.date) && expires.value.clock == now.clock)
        && subs == Effect(old(subs), Call.Activate(planID, true, lookupFails, expire, create, expires))
        && (ok && parses && (forall key :: key in Entries(plan.value) ==> sync(key).NoFault?) ==>
              ents.rows == Synced(old(ents.rows), Entries(plan.value), subID, Seconds(expires, clock))
              && ents.cache == if cacheDown then old(ents.cache) else None)
      ensures ok <==> plan.Some? && !lookupFails && (LiveIndex(old(subs)).Some? ==> expire.NoFault?) && create.NoFault?
      ensures !ok ==> ents.rows == old(ents.rows) && ents.cache == old(ents.cache)
    {
      if plan.None? { return false; }
      var expiry := CalculateExpiry(now, plan.value.cycle);
      assert expiry.Some? ==> EndsOn(now.date, plan.value.cycle, expiry.value.date) && expiry.value.clock == now.clock;
      if lookupFails { return false; }
      var existing := GetActive();
      if existing.Some? {
        if expire.Applied() { subs := SetStatus(subs, existing.value, Expired); }
        if expire.Reported() { return false; }
      }
      if create.Applied() { subs := subs + [Sub(Active, planID, expiry, false)]; }
      if create.Reported() { return false; }
      var synced := ents.SyncFromSubscription(plan, parses, subID, Seconds(expiry, clock), sync, cacheDown);
      ok := true;
    }

    method Expire(id: nat, lookupFails: bool, update: WriteFault) returns (ok: bool)
      modifies this`subs
      ensures subs == Effect(old(subs), Call.Expire(id, lookupFails, update))
      ensures !lookupFails && id < |old(subs)| && old(subs)[id].status.Active? && update.Applied() ==>
        subs == old(subs)[id := old(subs)[id].(status := Grace)]
      ensures ok <==> !lookupFails && id < |old(subs)| && old(subs)[id].status.Active? && update.NoFault?
    {
      if lookupFails || id >= |subs| { return false; }
      if subs[id].status != Active { return false; }
      if update.Applied() { subs := SetStatus(subs, id, Grace); }
      ok := update.NoFault?;
    }

    /** Entitlements are reset only by a call whose status write succeeded, and by then no
        subscription of the product is live. A lost reply leaves the row expired and the
        entitlements as they were, and no later call resets them. */
    method EndGrace(id: nat, lookupFails: bool, update: WriteFault, delete: WriteFault, upsert: WriteFault, cacheDown: bool)
      returns (ok: bool)
      requires OneLive(subs)
      modifies this`subs, ents`rows, ents`cache
      ensures subs == Effect(old(subs), Call.EndGrace(id, lookupFails, update))
      ensures !lookupFails && id < |old(subs)| && old(subs)[id].status.Grace? && update.Applied() ==>
        subs == old(subs)[id := old(subs)[id].(status := Status.Expired)]
      ensures ents.rows != old(ents.rows) ==>
        LiveIndex(subs).None? && update.NoFault? && !lookupFails && id < |old(subs)| && old(subs)[id].status.Grace?
      ensures ok ==> ents.rows == FreeRows() && LiveIndex(subs).None?
      ensures ok <==> !lookupFails && id < |old(subs)| && old(subs)[id].status.Grace? && update.NoFault? && delete.NoFault? && upsert.NoFault?
    {
      if lookupFails || id >= |subs| { return false; }
      if subs[id].status != Grace { return false; }
      if update.Applied() { subs := SetStatus(subs, id, Expired); }
      if update.Reported() { return false; }
      assert LiveIndex(subs).None?;
      ok := ents.ResetToFree(delete, upsert, cacheDown);
    }

    /** Cancelling touches neither the entitlement rows nor the cache. */
    method Cancel(lookupFails: bool, update: WriteFault) returns (ok: bool)
      modifies this`subs
      ensures subs == Effect(old(subs), Call.Cancel(lookupFails, update))
      ensures !lookupFails && LiveIndex(old(subs)).Some? && update.Applied() ==>
        var i := LiveIndex(old(subs)).value;
        subs == old(subs)[i := old(subs)[i].(status := Cancelled, autoRenew := false)]
      ensures ok <==> !lookupFails && LiveIndex(old(subs)).Some? && update.NoFault?
    {
      if lookupFails { return false; }
      var sub := GetActive();
      if sub.None? { return false; }
      if update.Applied() { subs := subs[sub.value := subs[sub.value].(status := Cancelled, autoRenew := false)]; }
      ok := update.NoFault?;
    }
  }

  function Seconds(t: Option<Time>, clock: Time -> int): Option<int> { if t.None? then None else Some(clock(t.value)) }

  lemma {:induction false} FirstLive(subs: seq<Sub>, i: nat)
    requires i < |subs| && IsLive(subs[i].status) && LiveIndex(subs[..i]).None?
    ensures LiveIndex(subs) == Some(i)
    decreases |subs|
  {
    var rest := subs[..|subs| - 1];
    if i < |subs| - 1 {
      assert rest[..i] == subs[..i];
      FirstLive(rest, i);
    }
  }
}
