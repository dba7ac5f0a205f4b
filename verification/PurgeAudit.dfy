/** Any number of executors purging any accounts at once, beside callers that edit the same
    account rows: what the audit table and the account status guarantee together. */
module PurgeAudit {
  import opened Prelude
  import opened AccountPurge

  datatype Pc =
    | Looking
    | Inserting
    | Cascading(row: nat)
    | Checking(row: nat)     // markAccountDeleted: the lookup
    | Flipping(row: nat)     // ... and the save
    | Completing(row: nat)
    | Failing(row: nat)
    | Returned(ok: bool)
  {
    predicate Owns() { Cascading? || Checking? || Flipping? || Completing? || Failing? }
  }

  datatype Exec = Exec(account: int, initiator: int, pc: Pc)

  /** A caller that has read the account row and will save all of it: a profile edit, a login. */
  datatype Edit = Edit(account: int, sawDeleted: bool)

  /** `revived`: accounts made active again, after their flip, by the save of an older row.
      `orphaned`: rows whose insert's reply was lost or whose final mark took no effect;
      `wiped`: rows whose cascade succeeded. */
  datatype State = State(deleted: set<int>, revived: set<int>, audits: seq<Audit>, execs: map<nat, Exec>,
                         edits: map<nat, Edit>, orphaned: set<nat>, wiped: set<nat>)

  datatype Step =
    | Begin(e: nat, account: int, initiator: int)
    | Look(e: nat, fails: bool)
    | Insert(e: nat, fault: WriteFault)
    | CascadeEnds(e: nat, ok: bool)
    | Check(e: nat, fails: bool)
    | Flip(e: nat, fault: WriteFault)
    | Complete(e: nat, fault: WriteFault)
    | Fail(e: nat, fault: WriteFault)
    | ReadAccount(w: nat, account: int)
    | SaveAccount(w: nat, fault: WriteFault)

  function Goto(s: State, e: nat, pc: Pc): State
    requires e in s.execs
  {
    s.(execs := s.execs[e := s.execs[e].(pc := pc)])
  }

  predicate InFlight(audits: seq<Audit>, account: int) {
    exists i :: 0 <= i < |audits| && audits[i].account == account && audits[i].status.Purging?
  }

  /** The last write on a row; without effect, it leaves the row to no one. */
  function Mark(s: State, row: nat, to: AuditStatus, fault: WriteFault): State
    requires row < |s.audits|
  {
    if fault.Applied() then s.(audits := s.audits[row := s.audits[row].(status := to)])
    else s.(orphaned := s.orphaned + {row})
  }

  /** An applied save of the whole account row. */
  function Saved(s: State, account: int, asDeleted: bool): State {
    if asDeleted then s.(deleted := s.deleted + {account}, revived := s.revived - {account})
    else if account in s.deleted then s.(deleted := s.deleted - {account}, revived := s.revived + {account})
    else s
  }

  function NextEdit(s: State, st: Step): State
    requires st.ReadAccount? || st.SaveAccount?
  {
    match st
    case ReadAccount(w, account) =>
      if w in s.edits then s else s.(edits := s.edits[w := Edit(account, account in s.deleted)])
    case SaveAccount(w, fault) =>
      if w !in s.edits then s
      else
        var s' := s.(edits := s.edits - {w});
        if fault.Applied() then Saved(s', s.edits[w].account, s.edits[w].sawDeleted) else s'
  }

  function NextExec(s: State, st: Step): State
    requires !st.ReadAccount? && !st.SaveAccount? && !st.Begin? && st.e in s.execs
  {
    var e, x := st.e, s.execs[st.e];
    match st
    case Look(_, fails) =>
      if !x.pc.Looking? then s
      else if x.initiator <= 0 || fails then Goto(s, e, Returned(false))
      else if x.account in s.deleted then Goto(s, e, Returned(true))
      else Goto(s, e, Inserting)
    case Insert(_, fault) =>
      if !x.pc.Inserting? then s
      else if fault.FailedBefore? || InFlight(s.audits, x.account) then Goto(s, e, Returned(false))
      else
        var row := |s.audits|;
        var s' := s.(audits := s.audits + [Audit(x.account, x.initiator, Purging)]);
        if fault.ReplyLost? then Goto(s'.(orphaned := s.orphaned + {row}), e, Returned(false)) else Goto(s', e, Cascading(row))
    case CascadeEnds(_, ok) =>
      if !x.pc.Cascading? then s
      else Goto(if ok then s.(wiped := s.wiped + {x.pc.row}) else s, e, if ok then Checking(x.pc.row) else Failing(x.pc.row))
    case Check(_, fails) =>
      if !x.pc.Checking? then s
      else if fails then Goto(s, e, Failing(x.pc.row))
      else if x.account in s.deleted then Goto(s, e, Completing(x.pc.row))
      else Goto(s, e, Flipping(x.pc.row))
    case Flip(_, fault) =>
      if !x.pc.Flipping? then s
      else
        var s' := if fault.Applied() then Saved(s, x.account, true) else s;
        Goto(s', e, if fault.Reported() then Failing(x.pc.row) else Completing(x.pc.row))
    case Complete(_, fault) =>
      if !x.pc.Completing? || x.pc.row >= |s.audits| then s
      else Goto(Mark(s, x.pc.row, Completed, fault), e, Returned(!fault.Reported()))
    case Fail(_, fault) =>
      if !x.pc.Failing? || x.pc.row >= |s.audits| then s
      else Goto(Mark(s, x.pc.row, Failed, fault), e, Returned(false))
  }

  function Next(s: State, st: Step): State {
    if st.ReadAccount? || st.SaveAccount? then NextEdit(s, st)
    else if st.Begin? then
      (if st.e in s.execs then s else s.(execs := s.execs[st.e := Exec(st.account, st.initiator, Looking)]))
    else if st.e !in s.execs then s
    else NextExec(s, st)
  }

  function Run(s: State, steps: seq<Step>): State
    decreases |steps|
  {
    if steps == [] then s else Run(Next(s, steps[0]), steps[1..])
  }

  ghost predicate Init(s: State) {
    s.audits == [] && s.execs == map[] && s.edits == map[] && s.orphaned == {} && s.revived == {} && s.wiped == {}
  }

  /** Deleted at some time: still so, or revived since. */
  predicate Flipped(s: State, account: int) { account in s.deleted || account in s.revived }

  predicate SaysDeleted(pc: Pc) { pc.Completing? || (pc.Returned? && pc.ok) }

  predicate PastCascade(pc: Pc) { pc.Checking? || pc.Flipping? || pc.Completing? }

  ghost predicate ExecOk(x: Exec, s: State) {
    && (x.pc.Owns() ==> x.pc.row < |s.audits| && s.audits[x.pc.row].status.Purging? && s.audits[x.pc.row].account == x.account
                        && x.pc.row !in s.orphaned)
    && (SaysDeleted(x.pc) ==> Flipped(s, x.account))
    && (PastCascade(x.pc) ==> x.pc.row in s.wiped)
  }

  /** A row in flight has a running owner, or is orphaned. */
  ghost predicate RowOk(i: nat, a: Audit, s: State) {
    && (a.status.Completed? ==> Flipped(s, a.account) && i in s.wiped)
    && (a.status.Purging? && i !in s.orphaned ==> exists e :: e in s.execs && s.execs[e].pc.Owns() && s.execs[e].pc.row == i)
  }

  ghost predicate AccountsOk(s: State) {
    && (forall a :: a in s.revived ==> a !in s.deleted)
    && (forall w :: w in s.edits && s.edits[w].sawDeleted ==> Flipped(s, s.edits[w].account))
  }

  ghost predicate Inv(s: State) {
    && OnePurging(s.audits) && AccountsOk(s)
    && (forall i :: i in s.orphaned ==> i < |s.audits| && s.audits[i].status.Purging?)
    && (forall e :: e in s.execs ==> ExecOk(s.execs[e], s))
    && (forall e, f :: e in s.execs && f in s.execs && e != f && s.execs[e].pc.Owns() && s.execs[f].pc.Owns() ==>
          s.execs[e].pc.row != s.execs[f].pc.row)
    && (forall i :: 0 <= i < |s.audits| ==> RowOk(i, s.audits[i], s))
  }

  // ---- The account rows ----

  /** Saving an account row keeps every account that was ever flipped flipped. */
  lemma SavedIsOk(s: State, account: int, asDeleted: bool)
    requires AccountsOk(s)
    ensures var s' := Saved(s, account, asDeleted);
      && AccountsOk(s') && (asDeleted ==> account in s'.deleted)
      && s' == s.(deleted := s'.deleted, revived := s'.revived)
      && forall a :: Flipped(s, a) ==> Flipped(s', a)
  {
  }

  lemma AccountsKeepInv(s: State, s': State)
    requires Inv(s) && AccountsOk(s')
    requires s' == s.(deleted := s'.deleted, revived := s'.revived, edits := s'.edits)
    requires forall a :: Flipped(s, a) ==> Flipped(s', a)
    ensures Inv(s')
  {
    forall f | f in s'.execs ensures ExecOk(s'.execs[f], s') { assert ExecOk(s.execs[f], s); }
    forall i | 0 <= i < |s'.audits| ensures RowOk(i, s'.audits[i], s') { assert RowOk(i, s.audits[i], s); }
  }

  lemma EditKeepsInv(s: State, st: Step)
    requires Inv(s) && (st.ReadAccount? || st.SaveAccount?)
    ensures Inv(NextEdit(s, st))
  {
    if st.SaveAccount? && st.w in s.edits && st.fault.Applied() {
      SavedIsOk(s.(edits := s.edits - {st.w}), s.edits[st.w].account, s.edits[st.w].sawDeleted);
    }
    AccountsKeepInv(s, NextEdit(s, st));
  }

  // ---- The executors ----

  lemma OwnersSurvive(s: State, s': State, e: nat, i: nat)
    requires i < |s.audits| && RowOk(i, s.audits[i], s) && s.audits[i].status.Purging? && i !in s.orphaned
    requires e in s.execs && e in s'.execs && s'.execs == s.execs[e := s'.execs[e]]
    requires s.execs[e].pc.Owns() && s.execs[e].pc.row == i ==> s'.execs[e].pc.Owns() && s'.execs[e].pc.row == i
    ensures exists f :: f in s'.execs && s'.execs[f].pc.Owns() && s'.execs[f].pc.row == i
  {
    var f :| f in s.execs && s.execs[f].pc.Owns() && s.execs[f].pc.row == i;
    assert f in s'.execs && s'.execs[f].pc.Owns() && s'.execs[f].pc.row == i;
  }

  /** A step that leaves the rows alone and lets its executor keep what it owned. */
  lemma GotoKeepsInv(s: State, e: nat, pc: Pc)
    requires Inv(s) && e in s.execs
    requires s.execs[e].pc.Owns() <==> pc.Owns()
    requires pc.Owns() ==> pc.row == s.execs[e].pc.row
    requires SaysDeleted(pc) ==> Flipped(s, s.execs[e].account)
    requires PastCascade(pc) ==> pc.row in s.wiped
    ensures Inv(Goto(s, e, pc))
  {
    var s' := Goto(s, e, pc);
    forall f | f in s'.execs ensures ExecOk(s'.execs[f], s') {
      assert ExecOk(s.execs[f], s);
    }
    forall i | 0 <= i < |s'.audits| ensures RowOk(i, s'.audits[i], s') {
      assert RowOk(i, s.audits[i], s);
      if s.audits[i].status.Purging? && i !in s.orphaned { OwnersSurvive(s, s', e, i); }
    }
  }

  lemma InsertKeepsInv(s: State, e: nat, pc: Pc, orphaned: set<nat>)
    requires Inv(s) && e in s.execs && s.execs[e].pc.Inserting? && !InFlight(s.audits, s.execs[e].account)
    requires (pc == Cascading(|s.audits|) && orphaned == s.orphaned) || (pc == Returned(false) && orphaned == s.orphaned + {|s.audits|})
    ensures Inv(Goto(s.(audits := s.audits + [Audit(s.execs[e].account, s.execs[e].initiator, Purging)], orphaned := orphaned), e, pc))
  {
    var s' := Goto(s.(audits := s.audits + [Audit(s.execs[e].account, s.execs[e].initiator, Purging)], orphaned := orphaned), e, pc);
    forall f | f in s.execs && s.execs[f].pc.Owns() ensures s.execs[f].pc.row < |s.audits| {
      assert ExecOk(s.execs[f], s);
    }
    forall f | f in s'.execs ensures ExecOk(s'.execs[f], s') {
      if f != e { assert ExecOk(s.execs[f], s); }
    }
    forall i | 0 <= i < |s'.audits| ensures RowOk(i, s'.audits[i], s') {
      if i < |s.audits| {
        assert RowOk(i, s.audits[i], s);
        if s.audits[i].status.Purging? && i !in s.orphaned { OwnersSurvive(s, s', e, i); }
      } else if pc.Cascading? {
        assert e in s'.execs && s'.execs[e].pc.Owns() && s'.execs[e].pc.row == i;
      }
    }
  }

  lemma MarkKeepsInv(s: State, e: nat, to: AuditStatus, fault: WriteFault, ok: bool)
    requires Inv(s) && e in s.execs && s.execs[e].pc.Owns() && s.execs[e].pc.row < |s.audits| && !to.Purging?
    requires to.Completed? || ok ==> Flipped(s, s.execs[e].account) && s.execs[e].pc.row in s.wiped
    ensures Inv(Goto(Mark(s, s.execs[e].pc.row, to, fault), e, Returned(ok)))
  {
    var row := s.execs[e].pc.row;
    var s' := Goto(Mark(s, row, to, fault), e, Returned(ok));
    assert ExecOk(s.execs[e], s);
    forall f | f in s'.execs ensures ExecOk(s'.execs[f], s') {
      assert ExecOk(s.execs[f], s);
    }
    forall i | 0 <= i < |s'.audits| ensures RowOk(i, s'.audits[i], s') {
      assert RowOk(i, s.audits[i], s);
      if i != row && s.audits[i].status.Purging? && i !in s.orphaned { OwnersSurvive(s, s', e, i); }
    }
  }

  lemma BeginKeepsInv(s: State, e: nat, account: int, initiator: int)
    requires Inv(s) && e !in s.execs
    ensures Inv(s.(execs := s.execs[e := Exec(account, initiator, Looking)]))
  {
    var s' := s.(execs := s.execs[e := Exec(account, initiator, Looking)]);
    forall f | f in s'.execs ensures ExecOk(s'.execs[f], s') {
      if f != e { assert ExecOk(s.execs[f], s); }
    }
    forall i | 0 <= i < |s'.audits| ensures RowOk(i, s'.audits[i], s') {
      assert RowOk(i, s.audits[i], s);
      if s.audits[i].status.Purging? && i !in s.orphaned {
        var f :| f in s.execs && s.execs[f].pc.Owns() && s.execs[f].pc.row == i;
        assert f in s'.execs && s'.execs[f].pc.Owns() && s'.execs[f].pc.row == i;
      }
    }
  }

  lemma FlipKeepsInv(s: State, e: nat, fault: WriteFault)
    requires Inv(s) && e in s.execs && s.execs[e].pc.Flipping?
    ensures Inv(NextExec(s, Flip(e, fault)))
  {
    var x := s.execs[e];
    var s1 := if fault.Applied() then Saved(s, x.account, true) else s;
    if fault.Applied() {
      SavedIsOk(s, x.account, true);
      AccountsKeepInv(s, s1);
    }
    GotoKeepsInv(s1, e, if fault.Reported() then Failing(x.pc.row) else Completing(x.pc.row));
  }

  lemma CascadeKeepsInv(s: State, e: nat, ok: bool)
    requires Inv(s) && e in s.execs && s.execs[e].pc.Cascading?
    ensures Inv(NextExec(s, CascadeEnds(e, ok)))
  {
    var row := s.execs[e].pc.row;
    var s1 := if ok then s.(wiped := s.wiped + {row}) else s;
    forall f | f in s1.execs ensures ExecOk(s1.execs[f], s1) { assert ExecOk(s.execs[f], s); }
    forall i | 0 <= i < |s1.audits| ensures RowOk(i, s1.audits[i], s1) { assert RowOk(i, s.audits[i], s); }
    GotoKeepsInv(s1, e, if ok then Checking(row) else Failing(row));
  }

  lemma ExecKeepsInv(s: State, st: Step)
    requires Inv(s) && !st.ReadAccount? && !st.SaveAccount? && !st.Begin? && st.e in s.execs
    ensures Inv(NextExec(s, st))
  {
    var e, x := st.e, s.execs[st.e];
    assert ExecOk(x, s);
    if st.CascadeEnds? && x.pc.Cascading? {
      CascadeKeepsInv(s, e, st.ok);
    } else if (st.Look? && x.pc.Looking?) || (st.Check? && x.pc.Checking?) {
      GotoKeepsInv(s, e, NextExec(s, st).execs[e].pc);
    } else if st.Insert? && x.pc.Inserting? {
      if st.fault.FailedBefore? || InFlight(s.audits, x.account) {
        GotoKeepsInv(s, e, Returned(false));
      } else if st.fault.ReplyLost? {
        InsertKeepsInv(s, e, Returned(false), s.orphaned + {|s.audits|});
      } else {
        InsertKeepsInv(s, e, Cascading(|s.audits|), s.orphaned);
      }
    } else if st.Flip? && x.pc.Flipping? {
      FlipKeepsInv(s, e, st.fault);
    } else if st.Complete? && x.pc.Completing? {
      MarkKeepsInv(s, e, Completed, st.fault, !st.fault.Reported());
    } else if st.Fail? && x.pc.Failing? {
      MarkKeepsInv(s, e, Failed, st.fault, false);
    }
  }

  lemma StepKeepsInv(s: State, st: Step)
    requires Inv(s)
    ensures Inv(Next(s, st))
  {
    if st.ReadAccount? || st.SaveAccount? {
      EditKeepsInv(s, st);
    } else if st.Begin? {
      if st.e !in s.execs { BeginKeepsInv(s, st.e, st.account, st.initiator); }
    } else if st.e in s.execs {
      ExecKeepsInv(s, st);
    }
  }

  lemma {:induction false} RunKeepsInv(s: State, steps: seq<Step>)
    requires Inv(s)
    ensures Inv(Run(s, steps))
    decreases |steps|
  {
    if steps != [] {
      StepKeepsInv(s, steps[0]);
      RunKeepsInv(Next(s, steps[0]), steps[1..]);
    }
  }

  ghost predicate Reachable(s: State) {
    exists start: State, steps: seq<Step> :: Init(start) && s == Run(start, steps)
  }

  lemma ReachableHasInv(s: State)
    requires Reachable(s)
    ensures Inv(s)
  {
    var start: State, steps: seq<Step> :| Init(start) && s == Run(start, steps);
    RunKeepsInv(start, steps);
  }

  // ---- What it means ----

  /** Under a completed audit row, and after an executor's success, the account is deleted
      exactly when no save of an older account row has revived it since its flip. */
  lemma CompletedMeansDeletedIff(s: State, i: nat, e: nat)
    requires Reachable(s)
    ensures i < |s.audits| && s.audits[i].status.Completed? ==>
              (s.audits[i].account in s.deleted <==> s.audits[i].account !in s.revived)
    ensures e in s.execs && s.execs[e].pc.Returned? && s.execs[e].pc.ok ==>
              (s.execs[e].account in s.deleted <==> s.execs[e].account !in s.revived)
  {
    ReachableHasInv(s);
    assert i < |s.audits| ==> RowOk(i, s.audits[i], s);
    assert e in s.execs ==> ExecOk(s.execs[e], s);
  }

  /** The saves that could: an account is revived only by a save whose row was read while the
      account was not deleted and which lands while it is; a purge or a later save undoes it. */
  lemma RevivedIff(s: State, st: Step, account: int)
    requires Inv(s)
    ensures account in Next(s, st).revived <==>
      if st.SaveAccount? && st.w in s.edits && st.fault.Applied() && s.edits[st.w].account == account then
        !s.edits[st.w].sawDeleted && Flipped(s, account)
      else account in s.revived
           && !(st.Flip? && st.e in s.execs && s.execs[st.e].pc.Flipping? && s.execs[st.e].account == account && st.fault.Applied())
  {
  }

  /** So while no such save takes part, completed does mean deleted. */
  lemma {:induction false} NoEditsNoRevival(s: State, steps: seq<Step>)
    requires Inv(s) && s.revived == {} && forall i :: 0 <= i < |steps| ==> !steps[i].SaveAccount?
    ensures Run(s, steps).revived == {}
    decreases |steps|
  {
    if steps != [] {
      forall account ensures account !in Next(s, steps[0]).revived { RevivedIff(s, steps[0], account); }
      StepKeepsInv(s, steps[0]);
      NoEditsNoRevival(Next(s, steps[0]), steps[1..]);
    }
  }

  /** A row completes, and an account is flipped, only after the row's own cascade has
      succeeded: rows are wiped by that step alone, every completed row has been, and the only
      other step that makes an account deleted is a save of a row read when it already was. */
  lemma CascadeComesFirst(s: State, st: Step, i: nat, account: int)
    requires Reachable(s)
    ensures i in Next(s, st).wiped <==>
      i in s.wiped || (st.CascadeEnds? && st.ok && st.e in s.execs && s.execs[st.e].pc == Cascading(i))
    ensures i < |s.audits| && s.audits[i].status.Completed? ==> i in s.wiped
    ensures account !in s.deleted && account in Next(s, st).deleted ==>
      if st.SaveAccount? then st.w in s.edits && s.edits[st.w] == Edit(account, true)
      else st.Flip? && st.e in s.execs && s.execs[st.e].account == account && s.execs[st.e].pc.Flipping? && s.execs[st.e].pc.row in s.wiped
  {
    ReachableHasInv(s);
    assert i < |s.audits| ==> RowOk(i, s.audits[i], s);
    if st.Flip? && st.e in s.execs { assert ExecOk(s.execs[st.e], s); }
  }

  // ---- One attempt, left alone ----

  function Opened(s: State, e: nat, account: int, initiator: int, lookFails: bool, insert: WriteFault): State {
    Next(Next(Next(s, Begin(e, account, initiator)), Look(e, lookFails)), Insert(e, insert))
  }

  function Settled(s: State, e: nat, ok: bool, checkFails: bool, flip: WriteFault, mark: WriteFault): State {
    Next(Next(Next(Next(Next(s, CascadeEnds(e, ok)), Check(e, checkFails)), Flip(e, flip)), Complete(e, mark)), Fail(e, mark))
  }

  /** BeginPurge: a caller without identity, a failed lookup, a refused insert and a lost reply
      are errors, the last of which leaves a row behind; a deleted account is done. */
  lemma OpenedAlone(s: State, e: nat, account: int, initiator: int, lookFails: bool, insert: WriteFault)
    requires e !in s.execs
    ensures var s', n := Opened(s, e, account, initiator, lookFails, insert), |s.audits|;
      var looks := initiator > 0 && !lookFails;
      var opens := looks && account !in s.deleted && !InFlight(s.audits, account) && insert.Applied();
      && s' == s.(execs := s'.execs, audits := s'.audits, orphaned := s'.orphaned)
      && s'.audits == (if opens then s.audits + [Audit(account, initiator, Purging)] else s.audits)
      && s'.orphaned == (if opens && insert.ReplyLost? then s.orphaned + {n} else s.orphaned)
      && s'.execs == s.execs[e := Exec(account, initiator,
           if opens && insert.NoFault? then Cascading(n) else Returned(looks && account in s.deleted))]
  {
    var s1 := Next(s, Begin(e, account, initiator));
    var s2 := Next(s1, Look(e, lookFails));
    assert s1.execs[e].pc.Looking?;
    if initiator > 0 && !lookFails && account !in s.deleted {
      assert s2.execs[e].pc.Inserting?;
    } else {
      assert s2.execs[e].pc.Returned?;
    }
  }

  /** FinishPurge: the account is flipped exactly when the cascade succeeded, the lookup did and
      the save took effect; the row is completed when no error was seen, failed otherwise, and
      stays in flight when the mark takes no effect; success is reported when nothing failed. */
  lemma SettledAlone(s: State, e: nat, row: nat, ok: bool, checkFails: bool, flip: WriteFault, mark: WriteFault)
    requires e in s.execs && s.execs[e].pc == Cascading(row) && row < |s.audits| && s.execs[e].account !in s.deleted
    ensures var s', x := Settled(s, e, ok, checkFails, flip, mark), s.execs[e];
      var done := ok && !checkFails && flip.NoFault?;
      && s'.deleted == (if ok && !checkFails && flip.Applied() then s.deleted + {x.account} else s.deleted)
      && s'.audits == (if mark.Applied() then s.audits[row := s.audits[row].(status := if done then Completed else Failed)] else s.audits)
      && s'.orphaned == (if mark.Applied() then s.orphaned else s.orphaned + {row})
      && s'.execs == s.execs[e := x.(pc := Returned(done && mark.NoFault?))]
  {
    var x := s.execs[e];
    var s1 := Next(s, CascadeEnds(e, ok));
    var s2 := Next(s1, Check(e, checkFails));
    var s3 := Next(s2, Flip(e, flip));
    if !ok {
      assert s1.execs[e].pc == Failing(row) && s3 == s1;
    } else if checkFails {
      assert s1.execs[e].pc == Checking(row) && s2.execs[e].pc == Failing(row) && s3 == s2;
    } else {
      assert s1.execs[e].pc == Checking(row) && s2.execs[e].pc == Flipping(row);
    }
    var done := ok && !checkFails && flip.NoFault?;
    assert s3.execs == s.execs[e := x.(pc := if done then Completing(row) else Failing(row))] && s3.audits == s.audits;
    MarkedAlone(s3, e, row, done, mark);
  }

  lemma MarkedAlone(s: State, e: nat, row: nat, done: bool, mark: WriteFault)
    requires e in s.execs && s.execs[e].pc == (if done then Completing(row) else Failing(row)) && row < |s.audits|
    ensures var s' := Next(Next(s, Complete(e, mark)), Fail(e, mark));
      && s' == s.(execs := s.execs[e := s.execs[e].(pc := Returned(done && mark.NoFault?))], audits := s'.audits, orphaned := s'.orphaned)
      && s'.audits == (if mark.Applied() then s.audits[row := s.audits[row].(status := if done then Completed else Failed)] else s.audits)
      && s'.orphaned == (if mark.Applied() then s.orphaned else s.orphaned + {row})
  {
    var s1 := Next(s, Complete(e, mark));
    if done { assert s1.execs[e].pc.Returned?; } else { assert s1 == s; }
  }

  /** At most one audit row in flight, and at most one executor past BeginPurge, per account. */
  lemma OnePurgeAtATime(s: State, e: nat, f: nat)
    requires Reachable(s) && e in s.execs && f in s.execs
    requires s.execs[e].pc.Owns() && s.execs[f].pc.Owns() && s.execs[e].account == s.execs[f].account
    ensures OnePurging(s.audits) && e == f
  {
    ReachableHasInv(s);
    assert ExecOk(s.execs[e], s) && ExecOk(s.execs[f], s);
  }

  /** When every executor has returned, the rows still in flight are exactly those whose
      insert's reply was lost or whose final mark took no effect. */
  lemma LeftInFlightIff(s: State, i: nat)
    requires Reachable(s) && i < |s.audits|
    requires forall e :: e in s.execs ==> s.execs[e].pc.Returned?
    ensures s.audits[i].status.Purging? <==> i in s.orphaned
  {
    ReachableHasInv(s);
    assert RowOk(i, s.audits[i], s);
  }

  ghost predicate Abandoned(s: State, i: nat) {
    && i < |s.audits| && s.audits[i].status.Purging?
    && forall e :: e in s.execs && s.execs[e].pc.Owns() ==> s.execs[e].pc.row != i
  }

  lemma AbandonedStep(s: State, st: Step, i: nat)
    requires Inv(s) && Abandoned(s, i)
    ensures Abandoned(Next(s, st), i) && Next(s, st).audits[i] == s.audits[i]
    ensures st.Insert? && st.e in s.execs && s.execs[st.e].pc.Inserting? && s.execs[st.e].account == s.audits[i].account ==>
              Next(s, st).execs[st.e].pc == Returned(false)
  {
    if !st.ReadAccount? && !st.SaveAccount? && st.e in s.execs {
      assert ExecOk(s.execs[st.e], s);
    }
  }

  /** A row left in flight blocks its account for good: it never moves again, and every
      later attempt to begin a purge of that account is refused. */
  lemma {:induction false} AbandonedRowBlocks(s: State, steps: seq<Step>, i: nat)
    requires Inv(s) && Abandoned(s, i)
    ensures Abandoned(Run(s, steps), i) && Run(s, steps).audits[i] == s.audits[i]
    ensures InFlight(Run(s, steps).audits, s.audits[i].account)
    decreases |steps|
  {
    if steps != [] {
      AbandonedStep(s, steps[0], i);
      StepKeepsInv(s, steps[0]);
      AbandonedRowBlocks(Next(s, steps[0]), steps[1..], i);
    }
  }

  // ---- A concrete revival ----

  lemma {:induction false} RunSnoc(s: State, steps: seq<Step>, st: Step)
    ensures Run(s, steps + [st]) == Next(Run(s, steps), st)
    decreases |steps|
  {
    if steps == [] {
      assert ([] + [st])[1..] == [];
    } else {
      assert (steps + [st])[1..] == steps[1..] + [st];
      RunSnoc(Next(s, steps[0]), steps[1..], st);
    }
  }

  lemma NextIsReachable(s: State, st: Step)
    requires Reachable(s)
    ensures Reachable(Next(s, st))
  {
    var start: State, steps: seq<Step> :| Init(start) && s == Run(start, steps);
    RunSnoc(start, steps, st);
  }

  lemma PurgeBegun(account: int) returns (s: State)
    ensures Reachable(s) && s.audits == [Audit(account, 1, Purging)] && account !in s.deleted
    ensures s.edits == map[0 := Edit(account, false)] && s.execs == map[0 := Exec(account, 1, Cascading(0))]
  {
    s := State({}, {}, [], map[], map[], {}, {});
    assert Reachable(s) by { assert s == Run(s, []); }
    NextIsReachable(s, ReadAccount(0, account));
    s := Next(s, ReadAccount(0, account));
    NextIsReachable(s, Begin(0, account, 1));
    s := Next(s, Begin(0, account, 1));
    NextIsReachable(s, Look(0, false));
    s := Next(s, Look(0, false));
    assert s.execs == map[0 := Exec(account, 1, Inserting)];
    NextIsReachable(s, Insert(0, NoFault));
    s := Next(s, Insert(0, NoFault));
  }

  /** An executor left alone purges an account while a profile edit holds the row it read before. */
  lemma PurgedDuringAnEdit(account: int) returns (s: State)
    ensures Reachable(s) && s.audits == [Audit(account, 1, Completed)] && account in s.deleted
    ensures s.edits == map[0 := Edit(account, false)]
  {
    s := PurgeBegun(account);
    NextIsReachable(s, CascadeEnds(0, true));
    s := Next(s, CascadeEnds(0, true));
    NextIsReachable(s, Check(0, false));
    s := Next(s, Check(0, false));
    assert s.execs == map[0 := Exec(account, 1, Flipping(0))];
    NextIsReachable(s, Flip(0, NoFault));
    s := Next(s, Flip(0, NoFault));
    assert s.execs == map[0 := Exec(account, 1, Completing(0))];
    NextIsReachable(s, Complete(0, NoFault));
    s := Next(s, Complete(0, NoFault));
  }

  /** ... and the edit's save brings the account back to life under its completed audit row. */
  lemma CompletedButAlive(account: int) returns (s: State)
    ensures Reachable(s) && s.audits == [Audit(account, 1, Completed)] && account !in s.deleted && account in s.revived
  {
    var purged := PurgedDuringAnEdit(account);
    NextIsReachable(purged, SaveAccount(0, NoFault));
    s := Next(purged, SaveAccount(0, NoFault));
  }
}
