/** What holds of deletion requests in every interleaving of calls, cancellations and workers. */
module DeleteRequestProofs {
  import opened Prelude
  import opened DeleteRequests

  ghost predicate PathOk(trail: seq<Status>) {
    || trail == [Pending]
    || trail == [Pending, Cancelled]
    || trail == [Pending, Processing]
    || trail == [Pending, Processing, Completed]
    || trail == [Pending, Processing, Expired]
  }

  ghost predicate RowOk(r: Row, now: nat, step: nat) {
    && PathOk(r.trail) && r.trail[|r.trail| - 1] == r.status
    && r.bornAt < step && (r.leftPending.None? <==> r.status == Pending)
    && (r.leftPending.Some? ==> r.bornAt < r.leftPending.value < step)
    && (r.claims == [] <==> r.status == Pending || r.status == Cancelled)
    && |r.claims| <= 1 && (r.claims != [] ==> r.CoolingOffUntil() <= r.claims[0] <= now)
    && r.cascades <= |r.claims|
    && (r.status == Completed || r.status == Expired ==> r.cascades == 1)
    && r.emits <= 1 && (r.emits == 1 ==> r.status == Completed)
  }

  ghost predicate QueueOk(w: Worker, rows: seq<Row>) {
    && (forall i, j :: 0 <= i < j < |w.queue| ==> w.queue[i] != w.queue[j])
    && (forall i :: 0 <= i < |w.queue| ==> w.queue[i] < |rows|)
    && (forall i :: 1 <= i < |w.queue| ==> rows[w.queue[i]].status == Processing && rows[w.queue[i]].cascades == 0 && rows[w.queue[i]].emits == 0)
    && (w.queue != [] ==>
          var head := rows[w.queue[0]];
          && head.emits == 0
          && (w.phase.Running? ==> head.status == Processing && head.cascades == 0)
          && (w.phase.Marking? ==> head.status == Processing && head.cascades == 1)
          && (w.phase.Emitting? ==> head.status == Completed))
  }

  ghost predicate CallOk(c: nat, call: Call, rows: seq<Row>, step: nat) {
    && call.began < step
    && (call.pc.Returned? ==> call.began < call.pc.at < step)
    && (call.pc.Returned? && (call.pc.result.Created? || call.pc.result.Existing?) ==>
          var id := call.pc.result.id;
          id < |rows| && rows[id].account == call.account && rows[id].PendingAtStep(call.pc.at))
    && (call.pc.Returned? && call.pc.result.Created? ==> rows[call.pc.result.id].creator == c)
  }

  /** A row's creator got its id back, unless the reply to its INSERT was lost. */
  ghost predicate CreatorOk(i: nat, r: Row, calls: map<nat, Call>) {
    && r.creator in calls && calls[r.creator].pc.Returned?
    && (calls[r.creator].pc.result == Created(i) || calls[r.creator].pc.result == Rejected)
  }

  ghost predicate Disjoint(a: seq<nat>, b: seq<nat>) {
    forall i, j :: 0 <= i < |a| && 0 <= j < |b| ==> a[i] != b[j]
  }

  ghost predicate RowsOk(s: State) {
    && (forall i :: 0 <= i < |s.rows| ==> RowOk(s.rows[i], s.now, s.step))
    && (forall i, j :: 0 <= i < j < |s.rows| ==>
          !(s.rows[i].status == Pending && s.rows[j].status == Pending && s.rows[i].account == s.rows[j].account))
  }

  ghost predicate WorkersOk(s: State) {
    && (forall n :: n in s.workers ==> QueueOk(s.workers[n], s.rows))
    && (forall n, m :: n in s.workers && m in s.workers && n != m ==> Disjoint(s.workers[n].queue, s.workers[m].queue))
  }

  ghost predicate CallsOk(s: State) {
    && (forall c :: c in s.calls ==> CallOk(c, s.calls[c], s.rows, s.step))
    && (forall i :: 0 <= i < |s.rows| ==> CreatorOk(i, s.rows[i], s.calls))
  }

  ghost predicate Inv(s: State) { RowsOk(s) && WorkersOk(s) && CallsOk(s) }

  // ---- Steps of the workers and of cancellation: rows change in place ----

  ghost predicate SameRequest(a: Row, b: Row, step: nat) {
    && b.account == a.account && b.creator == a.creator && b.bornAt == a.bornAt && b.requestedAt == a.requestedAt
    && (b.leftPending == a.leftPending || (a.leftPending.None? && b.leftPending == Some(step)))
    && (a.status != Pending ==> b.status != Pending)
  }

  /** If rows only change in place, calls and the one-pending rule are not disturbed. */
  lemma InPlaceKeepsCalls(s: State, s': State)
    requires Inv(s) && s'.step == s.step + 1 && s.now <= s'.now && s'.calls == s.calls
    requires |s'.rows| == |s.rows|
    requires forall i :: 0 <= i < |s.rows| ==> SameRequest(s.rows[i], s'.rows[i], s.step) && RowOk(s'.rows[i], s'.now, s'.step)
    requires WorkersOk(s')
    ensures Inv(s')
  {
    forall c | c in s'.calls ensures CallOk(c, s'.calls[c], s'.rows, s'.step) {
      assert CallOk(c, s.calls[c], s.rows, s.step);
    }
    forall i | 0 <= i < |s'.rows| ensures CreatorOk(i, s'.rows[i], s'.calls) {
      assert CreatorOk(i, s.rows[i], s.calls);
    }
  }

  lemma MovedIsOk(r: Row, from: Status, to: Status, now: nat, step: nat)
    requires RowOk(r, now, step)
    requires (from == Pending && to == Cancelled) || (from == Processing && (to == Completed || to == Expired))
    requires r.status == Processing && from == Processing ==> r.cascades == 1 && r.emits == 0
    ensures RowOk(Moved(r, from, to, step), now, step + 1)
    ensures SameRequest(r, Moved(r, from, to, step), step)
  {
    if r.status == from {
      assert (r.trail + [to])[|r.trail|] == to;
      assert from == Pending ==> r.trail == [Pending];
      assert from == Processing ==> r.trail == [Pending, Processing];
    }
  }

  lemma CancelKeepsInv(s: State, id: nat)
    requires Inv(s)
    ensures Inv(Next(s, Cancel(id)))
  {
    var s' := Next(s, Cancel(id));
    if id < |s.rows| { assert RowOk(s.rows[id], s.now, s.step); }
    if id < |s.rows| && s.rows[id].status == Pending {
      MovedIsOk(s.rows[id], Pending, Cancelled, s.now, s.step);
      forall n | n in s'.workers ensures QueueOk(s'.workers[n], s'.rows) {
        assert QueueOk(s.workers[n], s.rows);
      }
      InPlaceKeepsCalls(s, s');
    } else {
      assert s'.rows == s.rows;
      InPlaceKeepsCalls(s, s');
    }
  }

  lemma DisjointTail(q: seq<nat>, part: seq<nat>, other: seq<nat>)
    requires Disjoint(q, other) && (part == q || (q != [] && part == q[1..]))
    ensures Disjoint(part, other) && Disjoint(other, part)
  {
  }

  lemma FrontKeepsDisjoint(s: State, n: nat, w: Worker)
    requires WorkersOk(s) && n in s.workers && s.workers[n].queue != []
    requires w.queue == s.workers[n].queue || w.queue == s.workers[n].queue[1..]
    ensures var ws := s.workers[n := w];
            forall a, b :: a in ws && b in ws && a != b ==> Disjoint(ws[a].queue, ws[b].queue)
  {
    var ws := s.workers[n := w];
    forall a, b | a in ws && b in ws && a != b ensures Disjoint(ws[a].queue, ws[b].queue) {
      assert Disjoint(s.workers[a].queue, s.workers[b].queue);
      if a == n { DisjointTail(s.workers[n].queue, w.queue, s.workers[b].queue); }
      if b == n {
        assert Disjoint(s.workers[n].queue, s.workers[a].queue);
        DisjointTail(s.workers[n].queue, w.queue, s.workers[a].queue);
      }
    }
  }

  lemma OthersDoNotHold(s: State, n: nat, m: nat, row: Row)
    requires WorkersOk(s) && n in s.workers && m in s.workers && m != n && s.workers[n].queue != []
    ensures QueueOk(s.workers[m], s.rows[s.workers[n].queue[0] := row])
  {
    assert QueueOk(s.workers[n], s.rows) && QueueOk(s.workers[m], s.rows);
    assert Disjoint(s.workers[n].queue, s.workers[m].queue);
    var id := s.workers[n].queue[0];
    assert forall i :: 0 <= i < |s.workers[m].queue| ==> id != s.workers[m].queue[i];
  }

  /** The owner of a queue changes its front row and moves on; no other queue holds that row. */
  lemma FrontRowKeepsInv(s: State, n: nat, row: Row, w: Worker)
    requires Inv(s) && n in s.workers && s.workers[n].queue != [] && s.workers[n].queue[0] < |s.rows|
    requires var id := s.workers[n].queue[0];
             && SameRequest(s.rows[id], row, s.step) && RowOk(row, s.now, s.step + 1)
             && (w.queue == s.workers[n].queue || w.queue == s.workers[n].queue[1..])
             && QueueOk(w, s.rows[id := row])
    ensures Inv(s.(rows := s.rows[s.workers[n].queue[0] := row], workers := s.workers[n := w], step := s.step + 1))
  {
    var id := s.workers[n].queue[0];
    var s' := s.(rows := s.rows[id := row], workers := s.workers[n := w], step := s.step + 1);
    forall m | m in s'.workers ensures QueueOk(s'.workers[m], s'.rows) {
      if m != n { OthersDoNotHold(s, n, m, row); }
    }
    FrontKeepsDisjoint(s, n, w);
    forall i | 0 <= i < |s.rows| ensures SameRequest(s.rows[i], s'.rows[i], s.step) && RowOk(s'.rows[i], s'.now, s'.step) {
      assert RowOk(s.rows[i], s.now, s.step);
    }
    InPlaceKeepsCalls(s, s');
  }

  lemma IdleStepKeepsInv(s: State)
    requires Inv(s)
    ensures Inv(s.(step := s.step + 1))
  {
    var s' := s.(step := s.step + 1);
    forall i | 0 <= i < |s.rows| ensures RowOk(s'.rows[i], s'.now, s'.step) { assert RowOk(s.rows[i], s.now, s.step); }
    InPlaceKeepsCalls(s, s');
  }

  ghost predicate Busy(s: State, n: nat) { n in s.workers && s.workers[n].queue != [] }

  /** What is known of the row a worker is working on. */
  lemma FrontFacts(s: State, n: nat)
    requires Inv(s) && Busy(s, n)
    ensures var w := s.workers[n];
            && w.queue[0] < |s.rows|
            && var row := s.rows[w.queue[0]];
            && RowOk(row, s.now, s.step) && row.emits == 0
            && (w.phase.Running? ==> row.status == Processing && row.cascades == 0)
            && (w.phase.Marking? ==> row.status == Processing && row.cascades == 1)
            && (w.phase.Emitting? ==> row.status == Completed)
  {
    assert QueueOk(s.workers[n], s.rows);
  }

  lemma QueueAfterFront(w: Worker, rows: seq<Row>, row: Row, w': Worker)
    requires QueueOk(w, rows) && w.queue != []
    requires || w' == Finished(w)
             || (w'.queue == w.queue && w'.phase.Marking? && row.status == Processing && row.cascades == 1 && row.emits == 0)
             || (w'.queue == w.queue && w'.phase.Emitting? && row.status == Completed && row.emits == 0)
    ensures QueueOk(w', rows[w.queue[0] := row])
  {
    var rows' := rows[w.queue[0] := row];
    assert forall i :: 1 <= i < |w.queue| ==> rows'[w.queue[i]] == rows[w.queue[i]];
    if w' == Finished(w) && w'.queue != [] {
      assert w'.queue[0] == w.queue[1];
    }
  }

  /** A worker step touches its front row and its own phase, or nothing. */
  lemma WorkerStepIs(s: State, st: Step, row: Row, w: Worker)
    requires (st.Cascade? || st.Mark? || st.Emit?) && Busy(s, st.w) && s.workers[st.w].queue[0] < |s.rows|
    requires var front := s.workers[st.w]; var was := s.rows[front.queue[0]];
             match st
             case Cascade(_, ok) => front.phase.Running? && row == was.(cascades := was.cascades + 1) && w == front.(phase := Marking(ok))
             case Mark(_, fault) =>
               && front.phase.Marking?
               && row == (if fault.Applied() then Moved(was, Processing, if front.phase.ok then Completed else Expired, s.step) else was)
               && w == (if front.phase.ok && !fault.Reported() then front.(phase := Emitting) else Finished(front))
             case Emit(_) => front.phase.Emitting? && row == was.(emits := was.emits + 1) && w == Finished(front)
    ensures Next(s, st) == s.(rows := s.rows[s.workers[st.w].queue[0] := row], workers := s.workers[st.w := w], step := s.step + 1)
  {
  }

  lemma WorkerStepIdles(s: State, st: Step)
    requires st.Cascade? || st.Mark? || st.Emit?
    requires Busy(s, st.w) ==>
               match st
               case Cascade(_, _) => !s.workers[st.w].phase.Running?
               case Mark(_, _) => !s.workers[st.w].phase.Marking?
               case Emit(_) => !s.workers[st.w].phase.Emitting?
    ensures Next(s, st) == s.(step := s.step + 1)
  {
  }

  lemma FrontStepKeepsInv(s: State, n: nat, row: Row, w: Worker)
    requires Inv(s) && Busy(s, n) && s.workers[n].queue[0] < |s.rows|
    requires var front := s.workers[n];
             && SameRequest(s.rows[front.queue[0]], row, s.step) && RowOk(row, s.now, s.step + 1)
             && row.emits == (if front.phase.Emitting? then 1 else 0)
             && (|| w == Finished(front)
                 || (w.queue == front.queue && w.phase.Marking? && row.status == Processing && row.cascades == 1 && row.emits == 0)
                 || (w.queue == front.queue && w.phase.Emitting? && row.status == Completed && row.emits == 0))
    ensures Inv(s.(rows := s.rows[s.workers[n].queue[0] := row], workers := s.workers[n := w], step := s.step + 1))
  {
    assert QueueOk(s.workers[n], s.rows);
    QueueAfterFront(s.workers[n], s.rows, row, w);
    FrontRowKeepsInv(s, n, row, w);
  }

  lemma WorkerStepKeepsInv(s: State, st: Step)
    requires Inv(s) && (st.Cascade? || st.Mark? || st.Emit?)
    ensures Inv(Next(s, st))
  {
    var n := st.w;
    if !Busy(s, n) || (st.Cascade? && !s.workers[n].phase.Running?) || (st.Mark? && !s.workers[n].phase.Marking?)
       || (st.Emit? && !s.workers[n].phase.Emitting?) {
      WorkerStepIdles(s, st);
      IdleStepKeepsInv(s);
    } else {
      FrontFacts(s, n);
      var front := s.workers[n];
      var row := s.rows[front.queue[0]];
      var row', w' := row, front;
      match st {
        case Cascade(_, ok) =>
          row', w' := row.(cascades := row.cascades + 1), front.(phase := Marking(ok));
        case Mark(_, fault) =>
          var to := if front.phase.ok then Completed else Expired;
          MovedIsOk(row, Processing, to, s.now, s.step);
          row' := if fault.Applied() then Moved(row, Processing, to, s.step) else row;
          w' := if front.phase.ok && !fault.Reported() then front.(phase := Emitting) else Finished(front);
        case Emit(_) =>
          row', w' := row.(emits := row.emits + 1), Finished(front);
      }
      WorkerStepIs(s, st, row', w');
      FrontStepKeepsInv(s, n, row', w');
    }
  }

  lemma ClaimedRowIsOk(s: State, i: nat, ids: seq<nat>)
    requires i < |s.rows| && RowOk(s.rows[i], s.now, s.step) && Claimable(s, ids)
    ensures SameRequest(s.rows[i], ClaimedRow(s, i, ids), s.step) && RowOk(ClaimedRow(s, i, ids), s.now, s.step + 1)
    ensures i in ids ==> ClaimedRow(s, i, ids).status == Processing && s.rows[i].cascades == 0 && s.rows[i].emits == 0
  {
    if i in ids {
      assert Eligible(s.rows[i], s.now);
      assert s.rows[i].trail == [Pending] && s.rows[i].claims == [];
      assert [Pending] + [Processing] == [Pending, Processing];
      assert [] + [s.now] == [s.now];
    }
  }

  lemma ClaimKeepsQueues(s: State, n: nat, ids: seq<nat>, m: nat, rows: seq<Row>)
    requires Inv(s) && Claimable(s, ids)
    requires |rows| == |s.rows| && forall i :: 0 <= i < |rows| ==> rows[i] == ClaimedRow(s, i, ids)
    ensures QueueOk(Worker(ids, Running), rows)
    ensures m in s.workers ==> QueueOk(s.workers[m], rows)
  {
    forall i | 0 <= i < |ids| ensures rows[ids[i]].status == Processing && rows[ids[i]].cascades == 0 && rows[ids[i]].emits == 0 {
      assert ids[i] in ids;
      ClaimedRowIsOk(s, ids[i], ids);
    }
    if m in s.workers {
      ClaimedAreNotQueued(s, ids, m);
      assert QueueOk(s.workers[m], s.rows);
      assert forall i :: 0 <= i < |s.workers[m].queue| ==> rows[s.workers[m].queue[i]] == s.rows[s.workers[m].queue[i]];
    }
  }

  lemma ClaimKeepsWorkers(s: State, n: nat, ids: seq<nat>, w: Worker)
    requires Inv(s) && Claimable(s, ids) && (n in s.workers ==> s.workers[n].queue == [])
    requires w == Worker(ids, Running) || w == Worker([], Running)
    ensures WorkersOk(s.(rows := seq(|s.rows|, i requires 0 <= i < |s.rows| => ClaimedRow(s, i, ids)), workers := s.workers[n := w]))
  {
    var s' := s.(rows := seq(|s.rows|, i requires 0 <= i < |s.rows| => ClaimedRow(s, i, ids)), workers := s.workers[n := w]);
    forall m | m in s'.workers ensures QueueOk(s'.workers[m], s'.rows) {
      ClaimKeepsQueues(s, n, ids, m, s'.rows);
    }
    forall a, b | a in s'.workers && b in s'.workers && a != b ensures Disjoint(s'.workers[a].queue, s'.workers[b].queue) {
      if a != n { ClaimedAreNotQueued(s, ids, a); }
      if b != n { ClaimedAreNotQueued(s, ids, b); }
      if a != n && b != n { assert Disjoint(s.workers[a].queue, s.workers[b].queue); }
    }
  }

  lemma ClaimKeepsInv(s: State, n: nat, ids: seq<nat>, fault: WriteFault)
    requires Inv(s)
    ensures Inv(Next(s, Claim(n, ids, fault)))
  {
    var w := if n in s.workers then s.workers[n] else Worker([], Running);
    if w.queue != [] || !Claimable(s, ids) || fault.FailedBefore? {
      IdleStepKeepsInv(s);
    } else {
      var s' := Next(s, Claim(n, ids, fault));
      ClaimKeepsWorkers(s, n, ids, s'.workers[n]);
      forall i | 0 <= i < |s.rows|
        ensures SameRequest(s.rows[i], s'.rows[i], s.step) && RowOk(s'.rows[i], s'.now, s'.step)
      {
        ClaimedRowIsOk(s, i, ids);
      }
      InPlaceKeepsCalls(s, s');
    }
  }

  /** Queued rows are no longer pending, so no claim can pick them up again. */
  lemma ClaimedAreNotQueued(s: State, ids: seq<nat>, m: nat)
    requires Inv(s) && Claimable(s, ids) && m in s.workers
    ensures Disjoint(ids, s.workers[m].queue) && Disjoint(s.workers[m].queue, ids)
    ensures forall i :: 0 <= i < |s.workers[m].queue| ==> s.workers[m].queue[i] !in ids
  {
    assert QueueOk(s.workers[m], s.rows);
    forall i | 0 <= i < |s.workers[m].queue| ensures s.workers[m].queue[i] !in ids {
      assert s.rows[s.workers[m].queue[i]].status != Pending;
    }
    forall i, j | 0 <= i < |ids| && 0 <= j < |s.workers[m].queue| ensures ids[i] != s.workers[m].queue[j] {
      assert ids[i] in ids;
    }
  }

  // ---- Steps of RequestSelfDelete ----

  lemma ReturnKeepsInv(s: State, c: nat, call: Call)
    requires Inv(s) && c in s.calls && !s.calls[c].pc.Returned?
    requires call.account == s.calls[c].account && call.began == s.calls[c].began
    requires !call.pc.Returned? || call.pc.at == s.step
    requires call.pc.Returned? ==>
               match call.pc.result
               case Created(_) => false
               case Existing(id) => id < |s.rows| && s.rows[id].account == call.account && s.rows[id].status == Pending
               case _ => true
    ensures Inv(s.(calls := s.calls[c := call], step := s.step + 1))
  {
    var s' := s.(calls := s.calls[c := call], step := s.step + 1);
    assert CallOk(c, s.calls[c], s.rows, s.step);
    forall d | d in s'.calls ensures CallOk(d, s'.calls[d], s'.rows, s'.step) {
      if d != c { assert CallOk(d, s.calls[d], s.rows, s.step); }
      else if call.pc.Returned? && call.pc.result.Existing? { assert RowOk(s.rows[call.pc.result.id], s.now, s.step); }
    }
    forall i | 0 <= i < |s'.rows| ensures CreatorOk(i, s'.rows[i], s'.calls) && RowOk(s'.rows[i], s'.now, s'.step) {
      assert CreatorOk(i, s.rows[i], s.calls) && RowOk(s.rows[i], s.now, s.step);
    }
    assert WorkersOk(s') by {
      forall m | m in s'.workers ensures QueueOk(s'.workers[m], s'.rows) { assert QueueOk(s.workers[m], s.rows); }
    }
  }

  lemma InsertKeepsInv(s: State, c: nat, r: Result)
    requires Inv(s) && c in s.calls && s.calls[c].pc.Inserting?
    requires FindPending(s.rows, s.calls[c].account).None?
    requires r == Rejected || r == Created(|s.rows|)
    ensures Inv(Return(s, c, r).(rows := s.rows + [NewRow(s, c)], step := s.step + 1))
  {
    var s' := Return(s, c, r).(rows := s.rows + [NewRow(s, c)], step := s.step + 1);
    assert CallOk(c, s.calls[c], s.rows, s.step);
    forall i | 0 <= i < |s'.rows| ensures RowOk(s'.rows[i], s'.now, s'.step) && CreatorOk(i, s'.rows[i], s'.calls) {
      if i < |s.rows| { assert RowOk(s.rows[i], s.now, s.step) && CreatorOk(i, s.rows[i], s.calls); }
    }
    forall d | d in s'.calls ensures CallOk(d, s'.calls[d], s'.rows, s'.step) {
      if d != c { assert CallOk(d, s.calls[d], s.rows, s.step); }
    }
    forall m | m in s'.workers ensures QueueOk(s'.workers[m], s'.rows) { assert QueueOk(s.workers[m], s.rows); }
  }

  predicate Inserts(s: State, st: Step) {
    st.CallInsert? && st.c in s.calls && s.calls[st.c].pc.Inserting? && !st.fault.FailedBefore?
    && FindPending(s.rows, s.calls[st.c].account).None?
  }

  /** Apart from a successful insert, a call changes only itself. */
  lemma CallStepIs(s: State, st: Step)
    requires (st.CallLookup? || st.CallCheck? || st.CallGuard? || st.CallInsert? || st.CallReread?) && !Inserts(s, st)
    ensures Next(s, st) == s.(step := s.step + 1)
         || (st.c in s.calls && !s.calls[st.c].pc.Returned?
             && st.c in Next(s, st).calls
             && var call := Next(s, st).calls[st.c];
             && Next(s, st) == s.(calls := s.calls[st.c := call], step := s.step + 1)
             && call.account == s.calls[st.c].account && call.began == s.calls[st.c].began
             && (call.pc.Returned? ==> call.pc.at == s.step)
             && (call.pc.Returned? ==>
                   match call.pc.result
                   case Created(_) => false
                   case Existing(id) => id < |s.rows| && s.rows[id].account == call.account && s.rows[id].status == Pending
                   case _ => true))
  {
  }

  lemma CallStepKeepsInv(s: State, st: Step)
    requires Inv(s) && (st.CallLookup? || st.CallCheck? || st.CallGuard? || st.CallInsert? || st.CallReread?)
    ensures Inv(Next(s, st))
  {
    if Inserts(s, st) {
      InsertKeepsInv(s, st.c, if st.fault.ReplyLost? then Rejected else Created(|s.rows|));
    } else {
      CallStepIs(s, st);
      if Next(s, st) == s.(step := s.step + 1) {
        IdleStepKeepsInv(s);
      } else {
        ReturnKeepsInv(s, st.c, Next(s, st).calls[st.c]);
      }
    }
  }

  lemma BeginKeepsInv(s: State, c: nat, account: int)
    requires Inv(s)
    ensures Inv(Next(s, CallBegin(c, account)))
  {
    var s' := Next(s, CallBegin(c, account));
    forall d | d in s'.calls ensures CallOk(d, s'.calls[d], s'.rows, s'.step) {
      if d in s.calls { assert CallOk(d, s.calls[d], s.rows, s.step); }
    }
    forall i | 0 <= i < |s'.rows| ensures RowOk(s'.rows[i], s'.now, s'.step) && CreatorOk(i, s'.rows[i], s'.calls) {
      assert RowOk(s.rows[i], s.now, s.step) && CreatorOk(i, s.rows[i], s.calls);
    }
    forall m | m in s'.workers ensures QueueOk(s'.workers[m], s'.rows) { assert QueueOk(s.workers[m], s.rows); }
  }

  lemma StepKeepsInv(s: State, st: Step)
    requires Inv(s)
    ensures Inv(Next(s, st))
  {
    match st
    case Tick(_) =>
      forall i | 0 <= i < |s.rows| ensures RowOk(s.rows[i], Next(s, st).now, s.step + 1) { assert RowOk(s.rows[i], s.now, s.step); }
      InPlaceKeepsCalls(s, Next(s, st));
    case Cancel(id) => CancelKeepsInv(s, id);
    case CallBegin(c, account) => BeginKeepsInv(s, c, account);
    case Claim(w, ids, fault) => ClaimKeepsInv(s, w, ids, fault);
    case Cascade(_, _) => WorkerStepKeepsInv(s, st);
    case Mark(_, _) => WorkerStepKeepsInv(s, st);
    case Emit(_) => WorkerStepKeepsInv(s, st);
    case _ => CallStepKeepsInv(s, st);
  }

  lemma {:induction false} RunKeepsInv(s: State, steps: seq<Step>)
    requires Inv(s)
    ensures Inv(Run(s, steps))
    decreases |steps|
  {
    if steps != [] {
      StepKeepsInv(s, steps[0]);
      RunKeepsInv(Next(s, steps[0]), steps[1..]);
    }
  }
}
