/** What each service call does to the subscriptions of a product when no other call comes
    between its reads and writes, in the interleaved machine. */
module SubscriptionCalls {
  import opened Prelude
  import Subscriptions
  import opened SubscriptionRace

  /** Every row keeps its status and history, except that `id`, if any, has moved to `to`. */
  ghost predicate OnlyMoved(before: seq<Row>, after: seq<Row>, id: Option<nat>, to: Subscriptions.Status) {
    && |before| <= |after|
    && forall j :: 0 <= j < |before| ==>
         if id == Some(j) then after[j].status == to && after[j].trail == before[j].trail + [to] else after[j] == before[j]
  }

  lemma ReadAlone(s: State, t: nat, kind: Kind, fails: bool)
    requires t !in s.calls
    ensures Next(Next(s, Start(t, kind)), Read(t, fails)) == s.(step := s.step + 2,
              calls := s.calls[t := Call(kind, if fails then Returned(false) else AfterRead(s.(step := s.step + 1), kind))])
  {
    assert s.calls[t := Call(kind, Reading)][t := Call(kind, Returned(false))] == s.calls[t := Call(kind, Returned(false))];
  }

  lemma SaveAlone(s: State, t: nat, save: WriteFault)
    requires t in s.calls && s.calls[t].pc.Saving?
    requires var pc := s.calls[t].pc; pc.id < |s.rows| && s.rows[pc.id].status != pc.to && Admitted(s.rows, pc.id, pc.to)
    ensures var s', c := Next(s, Save(t, save)), s.calls[t];
      && |s'.rows| == |s.rows| && s'.ents == s.ents && s'.step == s.step + 1
      && OnlyMoved(s.rows, s'.rows, if save.Applied() then Some(c.pc.id) else None, c.pc.to)
      && s'.calls == s.calls[t := c.(pc := if save.NoFault? then AfterSave(c.kind, c.pc) else Returned(false))]
  {
  }

  /** Expire: an active row goes to grace, and nothing else happens. */
  lemma ExpireAlone(s: State, t: nat, id: nat, fails: bool, save: WriteFault)
    requires Reachable(s) && t !in s.calls
    ensures var s' := Next(Next(Next(s, Start(t, Expires(id))), Read(t, fails)), Save(t, save));
      var finds := !fails && id < |s.rows| && s.rows[id].status.Active?;
      && |s'.rows| == |s.rows| && s'.ents == s.ents
      && OnlyMoved(s.rows, s'.rows, if finds && save.Applied() then Some(id) else None, Subscriptions.Grace)
      && s'.calls == s.calls[t := Call(Expires(id), Returned(finds && save.NoFault?))]
  {
    ReachableHasInv(s);
    ReadAlone(s, t, Expires(id), fails);
    if !fails && id < |s.rows| && s.rows[id].status.Active? {
      SaveAlone(Next(Next(s, Start(t, Expires(id))), Read(t, fails)), t, save);
    }
  }

  lemma ResetAlone(s: State, t: nat, reset: WriteFault)
    requires t in s.calls
    ensures var s', c := Next(s, Reset(t, reset)), s.calls[t];
      if c.pc.Resetting? then
        s' == s.(step := s.step + 1, ents := if reset.Applied() then Free else s.ents,
                 calls := s.calls[t := c.(pc := Returned(reset.NoFault?))])
      else s' == s.(step := s.step + 1)
  {
  }

  /** EndGrace: a row in grace is expired, and the entitlements are reset past its save only. */
  lemma EndGraceAlone(s: State, t: nat, id: nat, fails: bool, save: WriteFault, reset: WriteFault)
    requires Reachable(s) && t !in s.calls
    ensures var s' := Next(Next(Next(Next(s, Start(t, EndsGrace(id))), Read(t, fails)), Save(t, save)), Reset(t, reset));
      var finds := !fails && id < |s.rows| && s.rows[id].status.Grace?;
      && |s'.rows| == |s.rows|
      && OnlyMoved(s.rows, s'.rows, if finds && save.Applied() then Some(id) else None, Subscriptions.Expired)
      && s'.ents == (if finds && save.NoFault? && reset.Applied() then Free else s.ents)
      && s'.calls == s.calls[t := Call(EndsGrace(id), Returned(finds && save.NoFault? && reset.NoFault?))]
  {
    ReadAlone(s, t, EndsGrace(id), fails);
    var s2 := Next(Next(s, Start(t, EndsGrace(id))), Read(t, fails));
    if !fails && id < |s.rows| && s.rows[id].status.Grace? { SaveAlone(s2, t, save); }
    ResetAlone(Next(s2, Save(t, save)), t, reset);
  }

  /** Cancel: the live row is cancelled; with none, the call fails. */
  lemma CancelAlone(s: State, t: nat, fails: bool, save: WriteFault)
    requires Reachable(s) && t !in s.calls
    ensures var s' := Next(Next(Next(s, Start(t, Cancels)), Read(t, fails)), Save(t, save));
      var live := FindLive(s.rows);
      && |s'.rows| == |s.rows| && s'.ents == s.ents
      && OnlyMoved(s.rows, s'.rows, if !fails && save.Applied() then live else None, Subscriptions.Cancelled)
      && s'.calls == s.calls[t := Call(Cancels, Returned(!fails && live.Some? && save.NoFault?))]
  {
    ReadAlone(s, t, Cancels, fails);
    if !fails && FindLive(s.rows).Some? {
      SaveAlone(Next(Next(s, Start(t, Cancels)), Read(t, fails)), t, save);
    }
  }

  /** Activate, up to its insert: a live row is expired first, and its failing save ends the call. */
  lemma ActivateMakesRoom(s: State, t: nat, fails: bool, save: WriteFault)
    requires Reachable(s) && t !in s.calls
    ensures var s' := Next(Next(Next(s, Start(t, Activates)), Read(t, fails)), Save(t, save));
      var live := FindLive(s.rows);
      && |s'.rows| == |s.rows| && s'.ents == s.ents && s'.step == s.step + 3
      && OnlyMoved(s.rows, s'.rows, if !fails && save.Applied() then live else None, Subscriptions.Expired)
      && s'.calls == s.calls[t := Call(Activates, if !fails && (live.None? || save.NoFault?) then Creating else Returned(false))]
      && (!fails && (live.None? || save.NoFault?) ==> FindLive(s'.rows).None?)
  {
    ReachableHasInv(s);
    ReadAlone(s, t, Activates, fails);
    var s2 := Next(Next(s, Start(t, Activates)), Read(t, fails));
    if !fails && FindLive(s.rows).Some? {
      SaveAlone(s2, t, save);
      if save.NoFault? {
        var s3 := Next(s2, Save(t, save));
        forall j | 0 <= j < |s3.rows| ensures !Live(s3.rows[j]) {
          assert Live(s.rows[j]) ==> FindLive(s.rows) == Some(j);
        }
      }
    }
  }

  /** ... and from there: exactly one new active row, and its plan's entitlements when the sync
      works; success is a matter of the insert alone. */
  lemma ActivateCreates(s: State, t: nat, create: WriteFault, syncs: bool)
    requires t in s.calls && s.calls[t].pc.Creating? && FindLive(s.rows).None?
    ensures var s', n := Next(Next(s, Create(t, create)), Sync(t, syncs)), |s.rows|;
      && |s'.rows| == n + (if create.Applied() then 1 else 0) && s'.rows[..n] == s.rows
      && (create.Applied() ==> s'.rows[n].status.Active? && s'.rows[n].trail == [Subscriptions.Active])
      && s'.ents == (if create.NoFault? && syncs then Of(n) else s.ents)
      && s'.calls == s.calls[t := s.calls[t].(pc := Returned(create.NoFault?))]
  {
    var s1 := Next(s, Create(t, create));
    assert s1.calls[t].pc == (if create.NoFault? then Syncing(|s.rows|) else Returned(false));
  }
}
