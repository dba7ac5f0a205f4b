/** The subscriptions of one account to one product when service calls interleave: each call
    reads a row and later saves all of it, and only the partial unique index on live rows
    stands between them. */
module SubscriptionRace {
  import opened Prelude
  import Subscriptions

  /** `trail`: every status the row has had; `bornAt`: the step at which it last became live. */
  datatype Row = Row(status: Subscriptions.Status, trail: seq<Subscriptions.Status>, bornAt: nat)

  datatype Kind = Activates | Expires(id: nat) | EndsGrace(id: nat) | Cancels

  datatype Pc =
    | Reading
    | Saving(id: nat, to: Subscriptions.Status, readAt: nat)
    | Creating
    | Syncing(id: nat)
    | Resetting(readAt: nat)
    | Returned(ok: bool)

  datatype Call = Call(kind: Kind, pc: Pc)

  /** Whose plan the entitlement rows stem from. */
  datatype Ents = Free | Of(id: nat)

  /** `rewritten`: rows on which a save landed that changed a status no longer live. */
  datatype State = State(step: nat, rows: seq<Row>, calls: map<nat, Call>, ents: Ents, rewritten: set<nat>)

  datatype Step =
    | Start(t: nat, kind: Kind)
    | Read(t: nat, fails: bool)
    | Save(t: nat, fault: WriteFault)
    | Create(t: nat, fault: WriteFault)
    | Sync(t: nat, ok: bool)
    | Reset(t: nat, fault: WriteFault)

  predicate Live(r: Row) { Subscriptions.IsLive(r.status) }

  /** The live row GetActive returns. */
  function FindLive(rows: seq<Row>): (r: Option<nat>)
    ensures r.Some? ==> r.value < |rows| && Live(rows[r.value])
    ensures r.None? ==> forall i :: 0 <= i < |rows| ==> !Live(rows[i])
  {
    if rows == [] then None
    else
      var earlier := FindLive(rows[..|rows| - 1]);
      if earlier.Some? then earlier else if Live(rows[|rows| - 1]) then Some(|rows| - 1) else None
  }

  ghost predicate Init(s: State) { s.rows == [] && s.calls == map[] && s.rewritten == {} }

  function Goto(s: State, t: nat, pc: Pc): State
    requires t in s.calls
  {
    s.(calls := s.calls[t := s.calls[t].(pc := pc)])
  }

  /** The lookup that opens each call, with its check of the status. */
  function AfterRead(s: State, kind: Kind): Pc {
    match kind
    case Activates => var live := FindLive(s.rows); if live.Some? then Saving(live.value, Subscriptions.Expired, s.step) else Creating
    case Cancels => var live := FindLive(s.rows); if live.Some? then Saving(live.value, Subscriptions.Cancelled, s.step) else Returned(false)
    case Expires(id) =>
      if id < |s.rows| && s.rows[id].status.Active? then Saving(id, Subscriptions.Grace, s.step) else Returned(false)
    case EndsGrace(id) =>
      if id < |s.rows| && s.rows[id].status.Grace? then Saving(id, Subscriptions.Expired, s.step) else Returned(false)
  }

  function Written(r: Row, to: Subscriptions.Status, step: nat): Row {
    if r.status == to then r
    else Row(to, r.trail + [to], if Subscriptions.IsLive(to) && !Live(r) then step else r.bornAt)
  }

  /** The unique index turns a save away that would make a second row live. */
  predicate Admitted(rows: seq<Row>, id: nat, to: Subscriptions.Status) {
    Subscriptions.IsLive(to) ==> forall j :: 0 <= j < |rows| && Live(rows[j]) ==> j == id
  }

  function AfterSave(kind: Kind, pc: Pc): Pc
    requires pc.Saving?
  {
    match kind
    case Activates => Creating
    case EndsGrace(_) => Resetting(pc.readAt)
    case Expires(_) => Returned(true)
    case Cancels => Returned(true)
  }

  function NextSave(s: State, t: nat, fault: WriteFault): State
    requires t in s.calls && s.calls[t].pc.Saving? && s.calls[t].pc.id < |s.rows|
  {
    var pc := s.calls[t].pc;
    if fault.FailedBefore? || !Admitted(s.rows, pc.id, pc.to) then Goto(s, t, Returned(false))
    else
      var row := s.rows[pc.id];
      var s' := s.(rows := s.rows[pc.id := Written(row, pc.to, s.step)],
                   rewritten := if !Live(row) && row.status != pc.to then s.rewritten + {pc.id} else s.rewritten);
      Goto(s', t, if fault.ReplyLost? then Returned(false) else AfterSave(s.calls[t].kind, pc))
  }

  function NextCreate(s: State, t: nat, fault: WriteFault): State
    requires t in s.calls && s.calls[t].pc.Creating?
  {
    if fault.FailedBefore? || FindLive(s.rows).Some? then Goto(s, t, Returned(false))
    else
      var s' := s.(rows := s.rows + [Row(Subscriptions.Active, [Subscriptions.Active], s.step)]);
      Goto(s', t, if fault.ReplyLost? then Returned(false) else Syncing(|s.rows|))
  }

  function Act(s: State, st: Step): State {
    match st
    case Start(t, kind) => if t in s.calls then s else s.(calls := s.calls[t := Call(kind, Reading)])
    case Read(t, fails) =>
      if t !in s.calls || !s.calls[t].pc.Reading? then s
      else Goto(s, t, if fails then Returned(false) else AfterRead(s, s.calls[t].kind))
    case Save(t, fault) =>
      if t !in s.calls || !s.calls[t].pc.Saving? || s.calls[t].pc.id >= |s.rows| then s else NextSave(s, t, fault)
    case Create(t, fault) => if t !in s.calls || !s.calls[t].pc.Creating? then s else NextCreate(s, t, fault)
    case Sync(t, ok) =>
      if t !in s.calls || !s.calls[t].pc.Syncing? then s
      else Goto(if ok then s.(ents := Of(s.calls[t].pc.id)) else s, t, Returned(true))
    case Reset(t, fault) =>
      if t !in s.calls || !s.calls[t].pc.Resetting? then s
      else Goto(if fault.Applied() then s.(ents := Free) else s, t, Returned(fault.NoFault?))
  }

  function Next(s: State, st: Step): State { Act(s, st).(step := s.step + 1) }

  function Run(s: State, steps: seq<Step>): State
    decreases |steps|
  {
    if steps == [] then s else Run(Next(s, steps[0]), steps[1..])
  }

  // ---- The invariant ----

  ghost predicate OneLive(rows: seq<Row>) {
    forall i, j :: 0 <= i < |rows| && 0 <= j < |rows| && Live(rows[i]) && Live(rows[j]) ==> i == j
  }

  /** The lives a row is meant to have: two changes at most, the last of them final. */
  predicate Lifecycle(trail: seq<Subscriptions.Status>) {
    || trail == [Subscriptions.Active]
    || trail == [Subscriptions.Active, Subscriptions.Grace]
    || trail == [Subscriptions.Active, Subscriptions.Expired]
    || trail == [Subscriptions.Active, Subscriptions.Cancelled]
    || trail == [Subscriptions.Active, Subscriptions.Grace, Subscriptions.Expired]
    || trail == [Subscriptions.Active, Subscriptions.Grace, Subscriptions.Cancelled]
  }

  /** Some status was left although it was final. */
  ghost predicate LeftAFinal(trail: seq<Subscriptions.Status>) {
    exists k :: 0 <= k < |trail| - 1 && !Subscriptions.IsLive(trail[k])
  }

  ghost predicate RowOk(i: nat, r: Row, s: State) {
    && r.trail != [] && r.trail[|r.trail| - 1] == r.status && r.bornAt < s.step
    && (r.status.Active? ==> r.trail == [Subscriptions.Active])
    && !r.status.Trial?
    && (if i in s.rewritten then LeftAFinal(r.trail) else Lifecycle(r.trail))
  }

  /** Every live row but `id` became live after `readAt`. */
  ghost predicate OthersAreNewer(rows: seq<Row>, id: int, readAt: nat) {
    forall j :: 0 <= j < |rows| && j != id && Live(rows[j]) ==> readAt < rows[j].bornAt
  }

  predicate Target(to: Subscriptions.Status) { to.Grace? || to.Expired? || to.Cancelled? }

  ghost predicate CallOk(c: Call, s: State) {
    && (c.pc.Saving? ==> c.pc.id < |s.rows| && c.pc.readAt < s.step && Target(c.pc.to))
    && (c.pc.Saving? ==> OthersAreNewer(s.rows, c.pc.id, c.pc.readAt))
    && (c.pc.Saving? && c.kind.EndsGrace? ==> c.pc.to.Expired?)
    && (c.pc.Resetting? ==> c.pc.readAt < s.step && OthersAreNewer(s.rows, -1, c.pc.readAt))
  }

  ghost predicate Inv(s: State) {
    && OneLive(s.rows)
    && (forall i :: i in s.rewritten ==> i < |s.rows|)
    && (forall i :: 0 <= i < |s.rows| ==> RowOk(i, s.rows[i], s))
    && (forall t :: t in s.calls ==> CallOk(s.calls[t], s))
  }

  lemma GotoKeepsInv(s: State, s': State, t: nat, pc: Pc)
    requires Inv(s) && t in s.calls && s' == Goto(s, t, pc).(step := s.step + 1, ents := s'.ents)
    requires CallOk(s.calls[t].(pc := pc), s')
    ensures Inv(s')
  {
    forall i | 0 <= i < |s'.rows| ensures RowOk(i, s'.rows[i], s') { assert RowOk(i, s.rows[i], s); }
    forall u | u in s'.calls ensures CallOk(s'.calls[u], s') {
      if u != t { assert CallOk(s.calls[u], s); }
    }
  }

  lemma ReadKeepsInv(s: State, t: nat, fails: bool)
    requires Inv(s) && t in s.calls && s.calls[t].pc.Reading?
    ensures Inv(Next(s, Read(t, fails)))
  {
    var s' := Next(s, Read(t, fails));
    GotoKeepsInv(s, s', t, s'.calls[t].pc);
  }

  lemma {:induction false} WrittenIsOk(i: nat, r: Row, to: Subscriptions.Status, s: State, s': State)
    requires RowOk(i, r, s) && Target(to) && s'.step == s.step + 1
    requires i in s'.rewritten <==> i in s.rewritten || (!Live(r) && r.status != to)
    ensures RowOk(i, Written(r, to, s.step), s')
  {
    if r.status != to {
      var trail := r.trail + [to];
      if i in s.rewritten {
        var k :| 0 <= k < |r.trail| - 1 && !Subscriptions.IsLive(r.trail[k]);
        assert trail[k] == r.trail[k];
      } else if !Live(r) {
        assert trail[|r.trail| - 1] == r.status;
      }
    }
  }

  /** A write moves one row; what is live elsewhere, or newly live, stays newer than any read. */
  lemma WriteKeepsNewer(s: State, id: nat, to: Subscriptions.Status, who: int, readAt: nat)
    requires OthersAreNewer(s.rows, who, readAt) && id < |s.rows| && readAt < s.step
    ensures OthersAreNewer(s.rows[id := Written(s.rows[id], to, s.step)], who, readAt)
  {
  }

  lemma SaveKeepsInv(s: State, t: nat, fault: WriteFault)
    requires Inv(s) && t in s.calls && s.calls[t].pc.Saving?
    ensures Inv(Next(s, Save(t, fault)))
  {
    var pc := s.calls[t].pc;
    assert CallOk(s.calls[t], s);
    var s' := Next(s, Save(t, fault));
    if fault.FailedBefore? || !Admitted(s.rows, pc.id, pc.to) {
      GotoKeepsInv(s, s', t, Returned(false));
    } else {
      forall i | 0 <= i < |s'.rows| ensures RowOk(i, s'.rows[i], s') {
        assert RowOk(i, s.rows[i], s);
        if i == pc.id { WrittenIsOk(i, s.rows[i], pc.to, s, s'); }
      }
      forall u | u in s'.calls ensures CallOk(s'.calls[u], s') {
        assert CallOk(s.calls[u], s);
        if s.calls[u].pc.Saving? { WriteKeepsNewer(s, pc.id, pc.to, s.calls[u].pc.id, s.calls[u].pc.readAt); }
        else if s.calls[u].pc.Resetting? { WriteKeepsNewer(s, pc.id, pc.to, -1, s.calls[u].pc.readAt); }
      }
    }
  }

  lemma CreateKeepsInv(s: State, t: nat, fault: WriteFault)
    requires Inv(s) && t in s.calls && s.calls[t].pc.Creating?
    ensures Inv(Next(s, Create(t, fault)))
  {
    var s' := Next(s, Create(t, fault));
    if fault.FailedBefore? || FindLive(s.rows).Some? {
      GotoKeepsInv(s, s', t, Returned(false));
    } else {
      forall i | 0 <= i < |s'.rows| ensures RowOk(i, s'.rows[i], s') {
        if i < |s.rows| { assert RowOk(i, s.rows[i], s); }
      }
      forall u | u in s'.calls ensures CallOk(s'.calls[u], s') {
        assert CallOk(s.calls[u], s);
      }
    }
  }

  lemma StartKeepsInv(s: State, t: nat, kind: Kind)
    requires Inv(s)
    ensures Inv(Next(s, Start(t, kind)))
  {
    var s' := Next(s, Start(t, kind));
    forall i | 0 <= i < |s'.rows| ensures RowOk(i, s'.rows[i], s') { assert RowOk(i, s.rows[i], s); }
    forall u | u in s'.calls ensures CallOk(s'.calls[u], s') {
      if u in s.calls { assert CallOk(s.calls[u], s); }
    }
  }

  lemma StepKeepsInv(s: State, st: Step)
    requires Inv(s)
    ensures Inv(Next(s, st))
  {
    if st.Start? {
      StartKeepsInv(s, st.t, st.kind);
    } else if st.t !in s.calls {
      IdleKeepsInv(s, Next(s, st));
    } else if st.Read? && s.calls[st.t].pc.Reading? {
      ReadKeepsInv(s, st.t, st.fails);
    } else if st.Save? && s.calls[st.t].pc.Saving? {
      SaveKeepsInv(s, st.t, st.fault);
    } else if st.Create? && s.calls[st.t].pc.Creating? {
      CreateKeepsInv(s, st.t, st.fault);
    } else if (st.Sync? && s.calls[st.t].pc.Syncing?) || (st.Reset? && s.calls[st.t].pc.Resetting?) {
      var s' := Next(s, st);
      GotoKeepsInv(s, s', st.t, s'.calls[st.t].pc);
    } else {
      IdleKeepsInv(s, Next(s, st));
    }
  }

  lemma IdleKeepsInv(s: State, s': State)
    requires Inv(s) && s' == s.(step := s.step + 1)
    ensures Inv(s')
  {
    forall i | 0 <= i < |s'.rows| ensures RowOk(i, s'.rows[i], s') { assert RowOk(i, s.rows[i], s); }
    forall u | u in s'.calls ensures CallOk(s'.calls[u], s') { assert CallOk(s.calls[u], s); }
  }

  lemma {:induction false} RunKeepsInv(s: State, steps: seq<Step>)
    requires Inv(s)
    ensures Inv(Run(s, steps))
    decreases |steps|
  {
    if steps != [] {
      StepKeepsInv(s, steps[0]);
      RunKeepsInv(Next(s, steps[0]), steps[1..]);
    }
  }

  ghost predicate Reachable(s: State) {
    exists start: State, steps: seq<Step> :: Init(start) && s == Run(start, steps)
  }

  lemma ReachableHasInv(s: State)
    requires Reachable(s)
    ensures Inv(s)
  {
    var start: State, steps: seq<Step> :| Init(start) && s == Run(start, steps);
    RunKeepsInv(start, steps);
  }

  // ---- What it means ----

  /** However the calls interleave, at most one row is live. */
  lemma OneLiveAlways(s: State)
    requires Reachable(s)
    ensures OneLive(s.rows)
  {
    ReachableHasInv(s);
  }

  /** A row keeps to a lifecycle, so changes at most twice and ends in a final status for good,
      exactly when no save has changed it after it was final. */
  lemma LifecycleIff(s: State, i: nat)
    requires Reachable(s) && i < |s.rows|
    ensures Lifecycle(s.rows[i].trail) <==> i !in s.rewritten
    ensures i !in s.rewritten ==> |s.rows[i].trail| <= 3
  {
    ReachableHasInv(s);
    assert RowOk(i, s.rows[i], s);
  }

  /** The saves that do: a final row moves in exactly those steps in which a call saves the
      row it read when it was live, to another status, and, if that status is live, finds no
      other row live. */
  lemma FinalRowMovesIff(s: State, st: Step, i: nat)
    requires Inv(s) && i < |s.rows| && !Live(s.rows[i])
    ensures i < |Next(s, st).rows|
    ensures Next(s, st).rows[i] != s.rows[i] <==>
      && st.Save? && st.fault.Applied() && st.t in s.calls && s.calls[st.t].pc.Saving?
      && s.calls[st.t].pc.id == i && s.calls[st.t].pc.to != s.rows[i].status
      && (s.calls[st.t].pc.to.Grace? ==> FindLive(s.rows).None?)
    ensures Next(s, st).rows[i] != s.rows[i] ==> i in Next(s, st).rewritten
  {
    if st.Save? && st.t in s.calls && s.calls[st.t].pc.Saving? {
      assert CallOk(s.calls[st.t], s);
      if FindLive(s.rows).Some? { assert Live(s.rows[FindLive(s.rows).value]); }
    }
  }

  /** EndGrace resets the entitlements of a product that is live exactly when some row became
      live after its read and still is. */
  lemma ResetHitsALiveProductIff(s: State, t: nat)
    requires Reachable(s) && t in s.calls && s.calls[t].pc.Resetting?
    ensures FindLive(s.rows).Some? <==>
      exists j :: 0 <= j < |s.rows| && Live(s.rows[j]) && s.calls[t].pc.readAt < s.rows[j].bornAt
  {
    ReachableHasInv(s);
    assert CallOk(s.calls[t], s);
  }

  // ---- Two concrete runs ----

  lemma {:induction false} RunSnoc(s: State, steps: seq<Step>, st: Step)
    ensures Run(s, steps + [st]) == Next(Run(s, steps), st)
    decreases |steps|
  {
    if steps == [] {
      assert ([] + [st])[1..] == [];
    } else {
      assert (steps + [st])[1..] == steps[1..] + [st];
      RunSnoc(Next(s, steps[0]), steps[1..], st);
    }
  }

  lemma NextIsReachable(s: State, st: Step)
    requires Reachable(s)
    ensures Reachable(Next(s, st))
  {
    var start: State, steps: seq<Step> :| Init(start) && s == Run(start, steps);
    RunSnoc(start, steps, st);
  }

  /** A call begins and reads. */
  lemma CallReads(s: State, t: nat, kind: Kind) returns (s': State)
    requires Reachable(s) && t !in s.calls
    ensures Reachable(s') && s'.rows == s.rows && s'.ents == s.ents && s'.rewritten == s.rewritten && s'.step == s.step + 2
    ensures s'.calls == s.calls[t := Call(kind, AfterRead(s.(step := s.step + 1), kind))]
  {
    NextIsReachable(s, Start(t, kind));
    var s1 := Next(s, Start(t, kind));
    NextIsReachable(s1, Read(t, false));
    s' := Next(s1, Read(t, false));
  }

  lemma OneActive() returns (s: State)
    ensures Reachable(s) && s.ents == Of(0) && s.rewritten == {} && |s.rows| == 1
    ensures s.rows[0].status == Subscriptions.Active && s.rows[0].trail == [Subscriptions.Active]
    ensures s.calls == map[0 := Call(Activates, Returned(true))]
  {
    s := State(0, [], map[], Free, {});
    assert Reachable(s) by { assert s == Run(s, []); }
    s := CallReads(s, 0, Activates);
    NextIsReachable(s, Create(0, NoFault));
    s := Next(s, Create(0, NoFault));
    NextIsReachable(s, Sync(0, true));
    s := Next(s, Sync(0, true));
  }

  lemma CancelledMeanwhile() returns (s: State)
    ensures Reachable(s) && |s.rows| == 1 && s.rows[0].status == Subscriptions.Cancelled
    ensures s.rows[0].trail == [Subscriptions.Active, Subscriptions.Cancelled]
    ensures 1 in s.calls && s.calls[1].pc.Saving? && s.calls[1].pc.id == 0 && s.calls[1].pc.to == Subscriptions.Grace
  {
    s := OneActive();
    s := CallReads(s, 1, Expires(0));
    s := CallReads(s, 2, Cancels);
    NextIsReachable(s, Save(2, NoFault));
    s := Next(s, Save(2, NoFault));
  }

  /** Concretely: Expire reads an active row, Cancel cancels it, Expire saves grace. */
  lemma CancelledComesBack() returns (s: State)
    ensures Reachable(s) && |s.rows| == 1 && s.rows[0].status == Subscriptions.Grace
    ensures s.rows[0].trail == [Subscriptions.Active, Subscriptions.Cancelled, Subscriptions.Grace]
  {
    s := CancelledMeanwhile();
    NextIsReachable(s, Save(1, NoFault));
    s := Next(s, Save(1, NoFault));
  }

  lemma GraceIsRead() returns (s: State)
    ensures Reachable(s) && |s.rows| == 1 && s.rows[0].status == Subscriptions.Grace
    ensures 2 in s.calls && s.calls[2].kind == EndsGrace(0) && s.calls[2].pc.Saving?
    ensures s.calls[2].pc.id == 0 && s.calls[2].pc.to == Subscriptions.Expired && 3 !in s.calls
  {
    s := OneActive();
    s := CallReads(s, 1, Expires(0));
    NextIsReachable(s, Save(1, NoFault));
    s := Next(s, Save(1, NoFault));
    assert s.rows[0].status == Subscriptions.Grace;
    s := CallReads(s, 2, EndsGrace(0));
  }

  /** EndGrace has read the row and will save and reset. */
  ghost predicate EndsGraceSoon(s: State) {
    2 in s.calls && s.calls[2].kind == EndsGrace(0) && s.calls[2].pc.Saving?
    && s.calls[2].pc.id == 0 && s.calls[2].pc.to == Subscriptions.Expired
  }

  lemma RoomForRenewal() returns (s: State)
    ensures Reachable(s) && |s.rows| == 1 && s.rows[0].status == Subscriptions.Expired && EndsGraceSoon(s)
    ensures 3 in s.calls && s.calls[3].pc == Creating
  {
    s := GraceIsRead();
    s := CallReads(s, 3, Activates);
    NextIsReachable(s, Save(3, NoFault));
    s := Next(s, Save(3, NoFault));
  }

  lemma RenewedMeanwhile() returns (s: State)
    ensures Reachable(s) && |s.rows| == 2 && s.rows[0].status == Subscriptions.Expired && s.rows[1].status == Subscriptions.Active
    ensures s.ents == Of(1) && EndsGraceSoon(s)
  {
    s := RoomForRenewal();
    NextIsReachable(s, Create(3, NoFault));
    s := Next(s, Create(3, NoFault));
    assert s.calls[3].pc == Syncing(1);
    NextIsReachable(s, Sync(3, true));
    s := Next(s, Sync(3, true));
  }

  /** Concretely: EndGrace reads a row in grace, Activate renews the product, EndGrace saves
      and resets the entitlements of the new subscription. */
  lemma RenewalIsReset() returns (s: State)
    ensures Reachable(s) && |s.rows| == 2 && s.rows[1].status == Subscriptions.Active && s.ents == Free
  {
    s := RenewedMeanwhile();
    NextIsReachable(s, Save(2, NoFault));
    s := Next(s, Save(2, NoFault));
    NextIsReachable(s, Reset(2, NoFault));
    s := Next(s, Reset(2, NoFault));
  }
}
