/** The entitlements of one account for one product: rows, cache, and the service over both. */
module Entitlements {
  import opened Prelude

  datatype Ent = Ent(value: string, source: string, sourceRef: string, expires: Option<int>)
  datatype Plan = Plan(code: string, cycle: string, features: map<string, string>)

  const PLAN_CODE := "plan_code"
  const FREE := "free"

  // ---- Rows ----

  /** The upsert updates an existing row from a struct, so fields that are empty or nil keep
      their old value. */
  function Assigned(was: Ent, e: Ent): Ent {
    Ent(if e.value == "" then was.value else e.value,
        if e.source == "" then was.source else e.source,
        if e.sourceRef == "" then was.sourceRef else e.sourceRef,
        if e.expires.None? then was.expires else e.expires)
  }

  function Upsert(rows: map<string, Ent>, key: string, e: Ent): map<string, Ent> {
    rows[key := if key in rows then Assigned(rows[key], e) else e]
  }

  /** plan_code first, then the features, which may override it. */
  function Entries(plan: Plan): map<string, string> { map[PLAN_CODE := plan.code] + plan.features }

  function FromPlan(value: string, subID: string, expires: Option<int>): Ent { Ent(value, "subscription", subID, expires) }

  /** All entries upserted: what every iteration order leads to. */
  function Synced(rows: map<string, Ent>, entries: map<string, string>, subID: string, expires: Option<int>): map<string, Ent> {
    map key | key in rows.Keys + entries.Keys ::
      if key in entries then Upsert(rows, key, FromPlan(entries[key], subID, expires))[key] else rows[key]
  }

  lemma SyncedStep(rows: map<string, Ent>, done: map<string, string>, key: string, value: string, subID: string, expires: Option<int>)
    requires key !in done
    ensures Upsert(Synced(rows, done, subID, expires), key, FromPlan(value, subID, expires))
            == Synced(rows, done[key := value], subID, expires)
  {
  }

  function FreeRows(): map<string, Ent> { map[PLAN_CODE := Ent(FREE, "system", "", None)] }

  // ---- What the rows say at a time ----

  predicate Live(e: Ent, now: int) { e.expires.None? || e.expires.value > now }

  function View(rows: map<string, Ent>, now: int): (em: map<string, string>)
    ensures PLAN_CODE in em
  {
    var live := map key | key in rows && Live(rows[key], now) :: rows[key].value;
    if PLAN_CODE in live then live else live[PLAN_CODE := FREE]
  }

  predicate LapsedBetween(e: Ent, earlier: int, now: int) { Live(e, earlier) && !Live(e, now) }

  /** Rows say the same at two times exactly when nothing lapsed in between, except a
      plan_code that said "free" already. */
  lemma ViewsAgreeIff(rows: map<string, Ent>, earlier: int, now: int)
    requires earlier <= now
    ensures View(rows, earlier) == View(rows, now) <==>
      forall key :: key in rows && LapsedBetween(rows[key], earlier, now) ==> key == PLAN_CODE && rows[key].value == FREE
  {
    var a, b := View(rows, earlier), View(rows, now);
    if forall key :: key in rows && LapsedBetween(rows[key], earlier, now) ==> key == PLAN_CODE && rows[key].value == FREE {
      forall key ensures (key in a <==> key in b) && (key in a ==> a[key] == b[key]) {
        if key in rows && LapsedBetween(rows[key], earlier, now) { assert key == PLAN_CODE; }
      }
      assert a.Keys == b.Keys;
    } else {
      var key :| key in rows && LapsedBetween(rows[key], earlier, now) && !(key == PLAN_CODE && rows[key].value == FREE);
      assert key in a && a[key] == rows[key].value;
      assert key == PLAN_CODE ==> b[key] == FREE;
    }
  }

  /** After a sync, and at any time, the rows say what they said before overridden by
      plan_code and then by the plan's features, until the subscription's expiry; keys the
      plan lacks survive. Two fields of an old row are not overridden: its value by an empty
      one, and its expiry by none. */
  lemma SyncOverrides(rows: map<string, Ent>, plan: Plan, subID: string, expires: Option<int>, now: int, key: string)
    ensures var before, after := View(rows, now), View(Synced(rows, Entries(plan), subID, expires), now);
      key !in Entries(plan) ==> (key in after <==> key in before) && (key in after ==> after[key] == before[key])
    ensures var after := View(Synced(rows, Entries(plan), subID, expires), now);
      var live := if expires.Some? then expires.value > now else key !in rows || Live(rows[key], now);
      key in Entries(plan) ==>
        if live then key in after && after[key] == (if Entries(plan)[key] != "" || key !in rows then Entries(plan)[key] else rows[key].value)
        else if key == PLAN_CODE then after[key] == FREE
        else key !in after
    ensures PLAN_CODE in Entries(plan)
    ensures Entries(plan)[PLAN_CODE] == if PLAN_CODE in plan.features then plan.features[PLAN_CODE] else plan.code
  {
    var synced := Synced(rows, Entries(plan), subID, expires);
    if key in synced && Live(synced[key], now) {
      assert key in View(synced, now);
    }
  }

  /** Concretely: a product renewed without expiry over rows that have lapsed stays free. */
  lemma LapsedRowsDefeatAnUnlimitedPlan(code: string, subID: string, now: int)
    ensures var rows := map[PLAN_CODE := Ent("pro", "subscription", "1", Some(now))];
      View(Synced(rows, Entries(Plan(code, "forever", map[])), subID, None), now)[PLAN_CODE] == FREE
  {
    var rows := map[PLAN_CODE := Ent("pro", "subscription", "1", Some(now))];
    SyncOverrides(rows, Plan(code, "forever", map[]), subID, None, now, PLAN_CODE);
  }

  /** A reset leaves the free plan and nothing else, for good. */
  lemma ResetIsFree(now: int)
    ensures View(FreeRows(), now) == map[PLAN_CODE := FREE]
  {
    var rows := FreeRows();
    assert Live(rows[PLAN_CODE], now);
  }

  // ---- The service ----

  class EntitlementService {
    var rows: map<string, Ent>
    var cache: Option<map<string, string>>
    ghost var cachedAt: int

    constructor ()
      ensures rows == map[] && cache.None?
    {
      rows, cache := map[], None;
    }

    /** A cached answer is what the present rows said when it was cached. */
    ghost predicate Coherent(now: int)
      reads this
    {
      cache.Some? ==> cachedAt <= now && cache.value == View(rows, cachedAt)
    }

    method Refresh(now: int, readFails: bool, cacheDown: bool) returns (em: Option<map<string, string>>)
      requires Coherent(now)
      modifies this`cache, this`cachedAt
      ensures Coherent(now)
      ensures em == if readFails then None else Some(View(rows, now))
      ensures if readFails || cacheDown then cache == old(cache) else cache == em && cachedAt == now
    {
      if readFails { return None; }
      var m: map<string, string> := map[];
      var todo := set key | key in rows && Live(rows[key], now);
      ghost var live := map key | key in rows && Live(rows[key], now) :: rows[key].value;
      while todo != {}
        invariant todo <= live.Keys
        invariant m == map key | key in live && key !in todo :: live[key]
        decreases |todo|
      {
        var key :| key in todo;
        m := m[key := rows[key].value];
        todo := todo - {key};
      }
      assert m == live;
      if PLAN_CODE !in m { m := m[PLAN_CODE := FREE]; }
      if !cacheDown {
        cache := Some(m);
        cachedAt := now;
      }
      em := Some(m);
    }

    /** A hit is what the rows said at caching time; anything else is recomputed. */
    method Get(now: int, readFails: bool, cacheDown: bool) returns (em: Option<map<string, string>>)
      requires Coherent(now)
      modifies this`cache, this`cachedAt
      ensures Coherent(now)
      ensures !cacheDown && old(cache).Some? ==> em == Some(View(rows, old(cachedAt))) && cache == old(cache)
      ensures cacheDown || old(cache).None? ==> em == if readFails then None else Some(View(rows, now))
    {
      if !cacheDown && cache.Some? { return cache; }
      em := Refresh(now, readFails, cacheDown);
    }

    method Invalidate(cacheDown: bool)
      modifies this`cache
      ensures cache == if cacheDown then old(cache) else None
    {
      if !cacheDown { cache := None; }
    }

    /** The upserts run in whatever order the map yields its keys; the result does not depend
        on it. The cache is only dropped when all of them succeeded. */
    method SyncFromSubscription(plan: Option<Plan>, parses: bool, subID: string, expires: Option<int>,
                                fault: string -> WriteFault, cacheDown: bool) returns (ok: bool)
      modifies this`rows, this`cache
      ensures ok ==> plan.Some? && parses && rows == Synced(old(rows), Entries(plan.value), subID, expires)
      ensures ok ==> cache == if cacheDown then old(cache) else None
      ensures !ok ==> cache == old(cache)
      ensures plan.Some? && parses && (forall key :: key in Entries(plan.value) ==> fault(key).NoFault?) ==> ok
      ensures plan.Some? ==> forall key :: key !in Entries(plan.value) ==>
        (key in rows <==> key in old(rows)) && (key in rows ==> rows[key] == old(rows)[key])
      ensures plan.None? ==> rows == old(rows)
    {
      if plan.None? || !parses { return false; }
      ok := UpsertAll(Entries(plan.value), subID, expires, fault);
      if ok { Invalidate(cacheDown); }
    }

    method UpsertAll(entries: map<string, string>, subID: string, expires: Option<int>, fault: string -> WriteFault) returns (ok: bool)
      modifies this`rows
      ensures ok ==> rows == Synced(old(rows), entries, subID, expires)
      ensures (forall key :: key in entries ==> fault(key).NoFault?) ==> ok
      ensures forall key :: key !in entries ==>
        (key in rows <==> key in old(rows)) && (key in rows ==> rows[key] == old(rows)[key])
    {
      var todo := entries.Keys;
      ghost var done: map<string, string> := map[];
      while todo != {}
        invariant todo <= entries.Keys
        invariant done == map key | key in entries && key !in todo :: entries[key]
        invariant rows == Synced(old(rows), done, subID, expires)
        decreases |todo|
      {
        var key :| key in todo;
        SyncedStep(old(rows), done, key, entries[key], subID, expires);
        if fault(key).Applied() { rows := Upsert(rows, key, FromPlan(entries[key], subID, expires)); }
        if fault(key).Reported() { return false; }
        done := done[key := entries[key]];
        todo := todo - {key};
      }
      assert done == entries;
      ok := true;
    }

    method ResetToFree(delete: WriteFault, upsert: WriteFault, cacheDown: bool) returns (ok: bool)
      modifies this`rows, this`cache
      ensures ok == (delete.NoFault? && upsert.NoFault?)
      ensures ok ==> rows == FreeRows() && cache == if cacheDown then old(cache) else None
      ensures !ok ==> cache == old(cache)
    {
      if delete.Applied() { rows := map[]; }
      if delete.Reported() { return false; }
      if upsert.Applied() { rows := Upsert(rows, PLAN_CODE, Ent(FREE, "system", "", None)); }
      if upsert.Reported() { return false; }
      Invalidate(cacheDown);
      ok := true;
    }
  }

  // ---- Whole runs whose store and cache calls succeed ----

  datatype State = State(rows: map<string, Ent>, cache: Option<map<string, string>>, cachedAt: int, now: int)

  datatype Step =
    | TimePasses(seconds: nat)
    | CacheExpires
    | Get
    | Refresh
    | Sync(plan: Plan, subID: string, expires: Option<int>)
    | Reset

  function Filled(s: State): State { s.(cache := Some(View(s.rows, s.now)), cachedAt := s.now) }

  function Next(s: State, st: Step): State {
    match st
    case TimePasses(seconds) => s.(now := s.now + seconds)
    case CacheExpires => s.(cache := None)
    case Get => if s.cache.Some? then s else Filled(s)
    case Refresh => Filled(s)
    case Sync(plan, subID, expires) => s.(rows := Synced(s.rows, Entries(plan), subID, expires), cache := None)
    case Reset => s.(rows := FreeRows(), cache := None)
  }

  function Answer(s: State): map<string, string> { if s.cache.Some? then s.cache.value else View(s.rows, s.now) }

  function Run(s: State, steps: seq<Step>): State
    decreases |steps|
  {
    if steps == [] then s else Run(Next(s, steps[0]), steps[1..])
  }

  ghost predicate CacheOk(s: State) {
    s.cache.Some? ==> s.cachedAt <= s.now && s.cache.value == View(s.rows, s.cachedAt)
  }

  lemma {:induction false} RunKeepsCache(s: State, steps: seq<Step>)
    requires CacheOk(s)
    ensures CacheOk(Run(s, steps))
    decreases |steps|
  {
    if steps != [] { RunKeepsCache(Next(s, steps[0]), steps[1..]); }
  }

  /** On every run from an empty cache, Get answers what Refresh would compute now, exactly
      when no row has lapsed since the answer was cached, a free plan_code aside. */
  lemma GetIsRefreshIff(s: State, steps: seq<Step>)
    requires s.cache.None?
    ensures var s' := Run(s, steps);
      Answer(s') == View(s'.rows, s'.now) <==>
        (s'.cache.Some? ==> forall key :: key in s'.rows && LapsedBetween(s'.rows[key], s'.cachedAt, s'.now) ==>
          key == PLAN_CODE && s'.rows[key].value == FREE)
  {
    RunKeepsCache(s, steps);
    var s' := Run(s, steps);
    if s'.cache.Some? { ViewsAgreeIff(s'.rows, s'.cachedAt, s'.now); }
  }
}
