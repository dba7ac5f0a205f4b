/** The promises of the deletion pipeline, over every reachable state. */
module DeleteRequestTheorems {
  import opened Prelude
  import opened DeleteRequests
  import opened DeleteRequestProofs

  ghost predicate Reachable(s: State) {
    exists start: State, steps: seq<Step> :: Init(start) && s == Run(start, steps)
  }

  lemma ReachableHasInv(s: State)
    requires Reachable(s)
    ensures Inv(s)
  {
    var start: State, steps: seq<Step> :| Init(start) && s == Run(start, steps);
    RunKeepsInv(start, steps);
  }

  /** Across all replicas a row is claimed at most once, never before its cooling-off
      has ended, and its cascade runs at most once, only after a claim. */
  lemma ClaimedOnceAfterCoolingOff(s: State, i: nat)
    requires Reachable(s) && i < |s.rows|
    ensures |s.rows[i].claims| <= 1 && s.rows[i].cascades <= |s.rows[i].claims|
    ensures forall t :: t in s.rows[i].claims ==> s.rows[i].requestedAt + 30 * 24 * 3600 <= t
  {
    ReachableHasInv(s);
    assert RowOk(s.rows[i], s.now, s.step);
  }

  ghost predicate IsPrefix<T>(a: seq<T>, b: seq<T>) { |a| <= |b| && b[..|a|] == a }

  /** A row's statuses are a prefix of one of the three lifecycles. */
  lemma LifecycleOfARow(s: State, i: nat)
    requires Reachable(s) && i < |s.rows|
    ensures s.rows[i].trail != [] && s.rows[i].trail[|s.rows[i].trail| - 1] == s.rows[i].status
    ensures || IsPrefix(s.rows[i].trail, [Pending, Processing, Completed])
            || IsPrefix(s.rows[i].trail, [Pending, Processing, Expired])
            || IsPrefix(s.rows[i].trail, [Pending, Cancelled])
  {
    ReachableHasInv(s);
    var trail := s.rows[i].trail;
    assert RowOk(s.rows[i], s.now, s.step);
    assert trail == [Pending] ==> IsPrefix(trail, [Pending, Cancelled]);
    assert trail == [Pending, Processing] ==> IsPrefix(trail, [Pending, Processing, Expired]);
  }

  lemma RowsPersistStep(s: State, st: Step, i: nat)
    requires i < |s.rows|
    ensures var s' := Next(s, st);
            i < |s'.rows| && IsPrefix(s.rows[i].trail, s'.rows[i].trail) && s'.rows[i].account == s.rows[i].account
  {
  }

  /** Rows are never deleted and history is never rewritten. */
  lemma {:induction false} RowsPersist(s: State, steps: seq<Step>, i: nat)
    requires i < |s.rows|
    ensures var s' := Run(s, steps);
            i < |s'.rows| && IsPrefix(s.rows[i].trail, s'.rows[i].trail) && s'.rows[i].account == s.rows[i].account
    decreases |steps|
  {
    if steps != [] {
      RowsPersistStep(s, steps[0], i);
      RowsPersist(Next(s, steps[0]), steps[1..], i);
    }
  }

  /** The account-deleted event is attempted at most once per row, only for a row
      that is completed, and such a row stays completed. */
  lemma EmittedOnceWhileCompleted(s: State, i: nat, steps: seq<Step>)
    requires Reachable(s) && i < |s.rows|
    ensures s.rows[i].emits <= 1
    ensures s.rows[i].emits == 1 ==> s.rows[i].status == Completed && s.rows[i].cascades == 1
    ensures s.rows[i].emits == 1 ==> i < |Run(s, steps).rows| && Run(s, steps).rows[i].status == Completed
  {
    ReachableHasInv(s);
    assert RowOk(s.rows[i], s.now, s.step);
    RowsPersist(s, steps, i);
    RunKeepsInv(s, steps);
    assert RowOk(Run(s, steps).rows[i], Run(s, steps).now, Run(s, steps).step);
  }

  /** However many calls race, an account never has two pending requests. */
  lemma AtMostOnePending(s: State, i: nat, j: nat)
    requires Reachable(s) && i < |s.rows| && j < |s.rows|
    requires s.rows[i].status == Pending && s.rows[j].status == Pending && s.rows[i].account == s.rows[j].account
    ensures i == j
  {
    ReachableHasInv(s);
  }

  /** Only the call that inserted a row reports having created it; it does report so,
      except when the reply to its INSERT was lost. */
  lemma OneCreator(s: State, i: nat)
    requires Reachable(s) && i < |s.rows|
    ensures forall c :: c in s.calls && s.calls[c].pc.Returned? && s.calls[c].pc.result == Created(i) ==> c == s.rows[i].creator
    ensures s.rows[i].creator in s.calls && s.calls[s.rows[i].creator].pc.Returned?
    ensures var r := s.calls[s.rows[i].creator].pc.result; r == Created(i) || r == Rejected
  {
    ReachableHasInv(s);
    assert CreatorOk(i, s.rows[i], s.calls);
    forall c | c in s.calls && s.calls[c].pc.Returned? && s.calls[c].pc.result == Created(i) ensures c == s.rows[i].creator {
      assert CallOk(c, s.calls[c], s.rows, s.step);
    }
  }

  /** Every id a call returns is of a request for its own account that was pending at
      some moment during that call. */
  lemma ReturnedIdWasPending(s: State, c: nat)
    requires Reachable(s) && c in s.calls && s.calls[c].pc.Returned?
    requires s.calls[c].pc.result.Created? || s.calls[c].pc.result.Existing?
    ensures var id, at := s.calls[c].pc.result.id, s.calls[c].pc.at;
            && s.calls[c].began < at < s.step
            && id < |s.rows| && s.rows[id].account == s.calls[c].account && s.rows[id].PendingAtStep(at)
  {
    ReachableHasInv(s);
    assert CallOk(c, s.calls[c], s.rows, s.step);
  }

  /** While an account has a pending request, a call that is not refused for another
      reason returns exactly that request. */
  lemma PendingIsReturned(s: State, c: nat, i: nat)
    requires Reachable(s) && c in s.calls && i < |s.rows|
    requires s.rows[i].status == Pending && s.rows[i].account == s.calls[c].account
    ensures s.calls[c].pc.Checking? ==>
              Next(s, CallCheck(c, false)).calls[c].pc == Returned(Existing(i), s.step)
    ensures s.calls[c].pc.Inserting? ==>
              Next(Next(s, CallInsert(c, NoFault)), CallReread(c, false)).calls[c].pc == Returned(Existing(i), s.step + 1)
  {
    ReachableHasInv(s);
    var found := FindPending(s.rows, s.calls[c].account);
    assert found == Some(i);
  }

  /** A worker left alone takes its front row through cascade and mark, whatever becomes of
      the mark; the row is announced only if the cascade succeeded and the mark was confirmed ... */
  lemma FrontRowIsSettled(s: State, n: nat, ok: bool, fault: WriteFault)
    requires Reachable(s) && n in s.workers && s.workers[n].queue != [] && s.workers[n].phase.Running?
    ensures var id, w := s.workers[n].queue[0], s.workers[n];
            var s' := Next(Next(s, Cascade(n, ok)), Mark(n, fault));
            && id < |s.rows| == |s'.rows|
            && s'.rows[id].status == (if !fault.Applied() then Processing else if ok then Completed else Expired)
            && s'.rows[id].cascades == 1 && s'.rows[id].emits == 0
            && n in s'.workers && s'.workers[n] == if ok && fault.NoFault? then w.(phase := Emitting) else Worker(w.queue[1..], Running)
  {
    ReachableHasInv(s);
    FrontFacts(s, n);
    var id, w := s.workers[n].queue[0], s.workers[n];
    var s1 := Next(s, Cascade(n, ok));
    assert s1.workers[n] == w.(phase := Marking(ok)) && s1.rows[id].cascades == 1 && s1.rows[id].status == Processing;
  }

  /** ... then, if the row completed, through its event, and on to the next row. */
  lemma FrontRowIsAnnounced(s: State, n: nat)
    requires Reachable(s) && n in s.workers && s.workers[n].queue != [] && s.workers[n].phase.Emitting?
    ensures var id, s' := s.workers[n].queue[0], Next(s, Emit(n));
            && id < |s.rows| == |s'.rows| && s'.rows[id] == s.rows[id].(emits := 1)
            && n in s'.workers && s'.workers[n] == Worker(s.workers[n].queue[1..], Running)
  {
    ReachableHasInv(s);
    FrontFacts(s, n);
  }
}
