/** Self-service deletion requests and the purge workers that act on them, as a
    transition system over one table. Every step is one SQL statement, one external
    call, or time passing; a thread that is never scheduled again has crashed. */
module DeleteRequests {
  import opened Prelude

  const COOLING_OFF: nat := 30 * 24 * 3600

  datatype Status = Pending | Processing | Cancelled | Completed | Expired

  /** A row of account_delete_requests, with what has happened to it. */
  datatype Row = Row(
    account: int,
    requestedAt: nat,
    status: Status,
    trail: seq<Status>,          // every status the row has had, oldest first
    creator: nat,                // the call that inserted it
    bornAt: nat,                 // number of the step that inserted it
    leftPending: Option<nat>,    // number of the step that moved it out of pending
    claims: seq<nat>,            // times at which a worker claimed it
    cascades: nat,
    emits: nat
  ) {
    function CoolingOffUntil(): nat { requestedAt + COOLING_OFF }

    predicate PendingAtStep(k: nat) {
      bornAt <= k && (leftPending.Some? ==> k < leftPending.value)
    }
  }

  datatype Result = Created(id: nat) | Existing(id: nat) | AlreadyPending | Rejected

  datatype CallPc = Looking | Checking | Guarding | Inserting | Rereading | Returned(result: Result, at: nat)

  datatype Call = Call(account: int, began: nat, pc: CallPc)

  datatype Phase = Running | Marking(ok: bool) | Emitting

  /** A worker works through the rows it claimed, front first; an empty queue is idle. */
  datatype Worker = Worker(queue: seq<nat>, phase: Phase)

  datatype State = State(now: nat, step: nat, batch: nat, rows: seq<Row>, calls: map<nat, Call>, workers: map<nat, Worker>)

  datatype Step =
    | Tick(seconds: nat)
    | Cancel(id: nat)
    | CallBegin(c: nat, account: int)
    | CallLookup(c: nat, found: bool)
    | CallCheck(c: nat, fails: bool)
    | CallGuard(c: nat, clear: bool)
    | CallInsert(c: nat, fault: WriteFault)
    | CallReread(c: nat, fails: bool)
    | Claim(w: nat, ids: seq<nat>, fault: WriteFault)
    | Cascade(w: nat, ok: bool)
    | Mark(w: nat, fault: WriteFault)
    | Emit(w: nat)

  ghost predicate Init(s: State) { s.rows == [] && s.calls == map[] && s.workers == map[] }

  // ---- The table ----

  /** GetPending: the account's pending row, if any. */
  function FindPending(rows: seq<Row>, account: int): (r: Option<nat>)
    ensures r.Some? ==> r.value < |rows| && rows[r.value].status == Pending && rows[r.value].account == account
    ensures r.None? ==> forall i :: 0 <= i < |rows| ==> !(rows[i].status == Pending && rows[i].account == account)
  {
    if rows == [] then None
    else if rows[|rows| - 1].status == Pending && rows[|rows| - 1].account == account then Some(|rows| - 1)
    else FindPending(rows[..|rows| - 1], account)
  }

  /** One conditional UPDATE: `... WHERE id = ? AND status = from`. */
  function Moved(row: Row, from: Status, to: Status, step: nat): Row {
    if row.status != from then row
    else row.(status := to, trail := row.trail + [to], leftPending := if from == Pending then Some(step) else row.leftPending)
  }

  function Eligible(row: Row, now: nat): bool { row.status == Pending && row.CoolingOffUntil() <= now }

  predicate Claimable(s: State, ids: seq<nat>) {
    && |ids| <= s.batch
    && (forall i, j :: 0 <= i < j < |ids| ==> ids[i] != ids[j])
    && (forall i :: 0 <= i < |ids| ==> ids[i] < |s.rows| && Eligible(s.rows[ids[i]], s.now))
  }

  // ---- RequestSelfDelete ----

  function Return(s: State, c: nat, r: Result): State
    requires c in s.calls
  {
    s.(calls := s.calls[c := s.calls[c].(pc := Returned(r, s.step))])
  }

  function GoOn(s: State, c: nat, pc: CallPc): State
    requires c in s.calls
  {
    s.(calls := s.calls[c := s.calls[c].(pc := pc)])
  }

  function NewRow(s: State, c: nat): Row
    requires c in s.calls
  {
    Row(s.calls[c].account, s.now, Pending, [Pending], c, s.step, None, [], 0, 0)
  }

  function NextCall(s: State, st: Step): State
    requires st.CallLookup? || st.CallCheck? || st.CallGuard? || st.CallInsert? || st.CallReread?
  {
    if st.c !in s.calls then s
    else
      var c, call := st.c, s.calls[st.c];
      var pending := FindPending(s.rows, call.account);
      match st
      case CallLookup(_, found) =>
        if !call.pc.Looking? then s else if found then GoOn(s, c, Checking) else Return(s, c, Rejected)
      case CallCheck(_, fails) =>
        if !call.pc.Checking? then s
        else if fails then Return(s, c, Rejected)
        else if pending.Some? then Return(s, c, Existing(pending.value))
        else GoOn(s, c, Guarding)
      case CallGuard(_, clear) =>
        if !call.pc.Guarding? then s else if clear then GoOn(s, c, Inserting) else Return(s, c, Rejected)
      case CallInsert(_, fault) => // the partial UNIQUE index rejects a second pending row
        if !call.pc.Inserting? then s
        else if fault.FailedBefore? then Return(s, c, Rejected)
        else if pending.Some? then (if fault.ReplyLost? then Return(s, c, Rejected) else GoOn(s, c, Rereading))
        else
          Return(s, c, if fault.ReplyLost? then Rejected else Created(|s.rows|)).(rows := s.rows + [NewRow(s, c)])
      case CallReread(_, fails) =>
        if !call.pc.Rereading? then s
        else if !fails && pending.Some? then Return(s, c, Existing(pending.value))
        else Return(s, c, AlreadyPending)
  }

  // ---- The purge workers ----

  function ClaimedRow(s: State, i: nat, ids: seq<nat>): Row
    requires i < |s.rows|
  {
    if i in ids then
      Moved(s.rows[i], Pending, Processing, s.step).(claims := s.rows[i].claims + [s.now])
    else s.rows[i]
  }

  function Finished(w: Worker): Worker
    requires w.queue != []
  {
    Worker(w.queue[1..], Running)
  }

  function NextWorker(s: State, st: Step): State
    requires st.Claim? || st.Cascade? || st.Mark? || st.Emit?
  {
    var idle := Worker([], Running);
    var w := if st.w in s.workers then s.workers[st.w] else idle;
    match st
    case Claim(n, ids, fault) =>
      if w.queue != [] || !Claimable(s, ids) || fault.FailedBefore? then s
      else
        s.(rows := seq(|s.rows|, i requires 0 <= i < |s.rows| => ClaimedRow(s, i, ids)),
           workers := s.workers[n := if fault.ReplyLost? then idle else Worker(ids, Running)])
    case Cascade(n, ok) =>
      if w.queue == [] || w.queue[0] >= |s.rows| || !w.phase.Running? then s
      else
        var id := w.queue[0];
        s.(rows := s.rows[id := s.rows[id].(cascades := s.rows[id].cascades + 1)],
           workers := s.workers[n := w.(phase := Marking(ok))])
    case Mark(n, fault) =>
      if w.queue == [] || w.queue[0] >= |s.rows| || !w.phase.Marking? then s
      else
        var id, ok := w.queue[0], w.phase.ok;
        s.(rows := if fault.Applied()
                   then s.rows[id := Moved(s.rows[id], Processing, if ok then Completed else Expired, s.step)]
                   else s.rows,
           workers := s.workers[n := if ok && !fault.Reported() then w.(phase := Emitting) else Finished(w)])
    case Emit(n) =>
      if w.queue == [] || w.queue[0] >= |s.rows| || !w.phase.Emitting? then s
      else
        var id := w.queue[0];
        s.(rows := s.rows[id := s.rows[id].(emits := s.rows[id].emits + 1)],
           workers := s.workers[n := Finished(w)])
  }

  function Next(s: State, st: Step): State {
    var s' :=
      match st
      case Tick(seconds) => s.(now := s.now + seconds)
      case Cancel(id) =>
        if id < |s.rows| then s.(rows := s.rows[id := Moved(s.rows[id], Pending, Cancelled, s.step)]) else s
      case CallBegin(c, account) =>
        if c in s.calls then s else s.(calls := s.calls[c := Call(account, s.step, Looking)])
      case Claim(_, _, _) => NextWorker(s, st)
      case Cascade(_, _) => NextWorker(s, st)
      case Mark(_, _) => NextWorker(s, st)
      case Emit(_) => NextWorker(s, st)
      case _ => NextCall(s, st);
    s'.(step := s.step + 1)
  }

  function Run(s: State, steps: seq<Step>): State
    decreases |steps|
  {
    if steps == [] then s else Run(Next(s, steps[0]), steps[1..])
  }
}
