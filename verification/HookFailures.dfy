/** The dead-letter table of failed hook invocations. */
module HookFailures {
  import opened Prelude

  const ERR_MESSAGE_MAX_LEN := 2048

  /** `account` is absent for events without one; a separate partial index covers those. */
  datatype Key = Key(event: string, hook: string, account: Option<int>)

  /** A failure as the caller hands it in: zero attempts or an absent time mean "not set". */
  datatype Failure = Failure(key: Key, payload: string, error: string, attempts: int, first: Option<int>)

  datatype Row = Row(key: Key, payload: string, error: string, attempts: int, first: int, last: int, replayed: Option<int>)

  /** An operation on the table; a row's id is its position. */
  datatype Op = SaveOp(f: Failure, now: int) | ReplayOp(id: nat, at: int)

  predicate Complete(f: Failure) { f.key.event != "" && f.key.hook != "" }

  function Normalised(f: Failure, now: int): Row {
    Row(f.key,
        if f.payload == "" then "{}" else f.payload,
        if |f.error| > ERR_MESSAGE_MAX_LEN then f.error[..ERR_MESSAGE_MAX_LEN] else f.error,
        if f.attempts <= 0 then 1 else f.attempts,
        if f.first.None? then now else f.first.value,
        now, None)
  }

  /** What the conflict branch of the upsert makes of an existing row. */
  function Merged(was: Row, saved: Row): Row {
    was.(payload := saved.payload, error := saved.error, attempts := was.attempts + 1, last := saved.last, replayed := None)
  }

  function Find(rows: seq<Row>, key: Key): (r: Option<nat>)
    ensures r.None? ==> forall i :: 0 <= i < |rows| ==> rows[i].key != key
    ensures r.Some? ==> r.value < |rows| && rows[r.value].key == key
  {
    if rows == [] then None
    else if rows[|rows| - 1].key == key then Some(|rows| - 1)
    else Find(rows[..|rows| - 1], key)
  }

  function Apply(rows: seq<Row>, op: Op): seq<Row> {
    match op
    case SaveOp(f, now) =>
      if !Complete(f) then rows
      else
        var at := Find(rows, f.key);
        if at.Some? then rows[at.value := Merged(rows[at.value], Normalised(f, now))] else rows + [Normalised(f, now)]
    case ReplayOp(id, at) => if id < |rows| then rows[id := rows[id].(replayed := Some(at))] else rows
  }

  function ApplyAll(ops: seq<Op>): seq<Row> {
    if ops == [] then [] else Apply(ApplyAll(ops[..|ops| - 1]), ops[|ops| - 1])
  }

  ghost predicate OneRowPerKey(rows: seq<Row>) {
    forall i, j :: 0 <= i < j < |rows| ==> rows[i].key != rows[j].key
  }

  /** What a row says after a failure was saved over `was`: a missing payload is an empty object,
      the error is cut at 2048, a repeated failure counts one attempt more and keeps its first
      time, and the row is pending. */
  ghost predicate Records(row: Row, was: Option<Row>, f: Failure, now: int) {
    && row.key == f.key && row.last == now && row.replayed.None?
    && (if f.payload == "" then row.payload == "{}" else row.payload == f.payload)
    && row.error <= f.error && (if |f.error| <= 2048 then row.error == f.error else |row.error| == 2048)
    && row.attempts == (if was.Some? then was.value.attempts + 1 else if f.attempts > 0 then f.attempts else 1)
    && row.first == (if was.Some? then was.value.first else if f.first.Some? then f.first.value else now)
  }

  ghost predicate RecordedAt(before: seq<Row>, after: seq<Row>, i: nat, f: Failure, now: int)
    requires i < |before| == |after|
  {
    && before[i].key == f.key && Records(after[i], Some(before[i]), f, now)
    && forall j :: 0 <= j < |before| && j != i ==> after[j] == before[j]
  }

  /** The table before and after a failure is saved: one row of its key, an old one or a new
      one at the end, and no other row moves. */
  ghost predicate Recorded(before: seq<Row>, after: seq<Row>, f: Failure, now: int) {
    if exists i :: 0 <= i < |before| && before[i].key == f.key then
      && |after| == |before|
      && (exists i :: 0 <= i < |before| && RecordedAt(before, after, i, f, now))
    else
      |after| == |before| + 1 && after[..|before|] == before && Records(after[|before|], None, f, now)
  }

  /** Saving a complete failure is that upsert, on any table. */
  lemma SaveRecords(rows: seq<Row>, f: Failure, now: int)
    requires Complete(f)
    ensures Recorded(rows, Apply(rows, SaveOp(f, now)), f, now)
  {
    var at := Find(rows, f.key);
    if at.Some? { assert RecordedAt(rows, Apply(rows, SaveOp(f, now)), at.value, f, now); }
  }

  // ---- The history of one row, read off the operations ----

  predicate Saves(op: Op, key: Key) { op.SaveOp? && Complete(op.f) && op.f.key == key }

  function SaveCount(ops: seq<Op>, key: Key): nat {
    if ops == [] then 0 else SaveCount(ops[..|ops| - 1], key) + (if Saves(ops[|ops| - 1], key) then 1 else 0)
  }

  /** The row the first save of a key inserts. */
  function FirstSaved(ops: seq<Op>, key: Key): Option<Row> {
    if ops == [] then None
    else
      var earlier := FirstSaved(ops[..|ops| - 1], key);
      var op := ops[|ops| - 1];
      if earlier.Some? then earlier else if Saves(op, key) then Some(Normalised(op.f, op.now)) else None
  }

  /** The last save of a key, for what a conflict refreshes. */
  function LastSaved(ops: seq<Op>, key: Key): Option<Row> {
    if ops == [] then None
    else
      var op := ops[|ops| - 1];
      if Saves(op, key) then Some(Normalised(op.f, op.now)) else LastSaved(ops[..|ops| - 1], key)
  }

  /** The last operation that named this row was a save. */
  predicate SavedLast(ops: seq<Op>, key: Key, id: nat) {
    if ops == [] then false
    else
      var op := ops[|ops| - 1];
      if Saves(op, key) then true
      else if op.ReplayOp? && op.id == id then false
      else SavedLast(ops[..|ops| - 1], key, id)
  }

  ghost predicate Tells(row: Row, ops: seq<Op>, id: nat) {
    var first, last := FirstSaved(ops, row.key), LastSaved(ops, row.key);
    && first.Some? && last.Some?
    && row.attempts == first.value.attempts + SaveCount(ops, row.key) - 1
    && row.first == first.value.first
    && row.error == last.value.error && row.payload == last.value.payload && row.last == last.value.last
    && (row.replayed.None? <==> SavedLast(ops, row.key, id))
  }

  lemma SavedIsFound(rows: seq<Row>, op: Op, key: Key)
    requires Find(rows, key).Some? || Saves(op, key)
    ensures Find(Apply(rows, op), key).Some?
  {
    var rows' := Apply(rows, op);
    if Find(rows, key).Some? {
      assert rows'[Find(rows, key).value].key == key;
    } else {
      assert rows'[|rows|].key == key;
    }
  }

  lemma {:induction false} UnsavedHasNoRow(ops: seq<Op>, key: Key)
    requires Find(ApplyAll(ops), key).None?
    ensures FirstSaved(ops, key).None? && SaveCount(ops, key) == 0
  {
    if ops != [] {
      var rest, op := ops[..|ops| - 1], ops[|ops| - 1];
      if Find(ApplyAll(rest), key).Some? || Saves(op, key) {
        SavedIsFound(ApplyAll(rest), op, key);
      } else {
        UnsavedHasNoRow(rest, key);
      }
    }
  }

  /** There is never more than one row per key. */
  lemma {:induction false} KeysAreUnique(ops: seq<Op>)
    ensures OneRowPerKey(ApplyAll(ops))
  {
    if ops != [] {
      KeysAreUnique(ops[..|ops| - 1]);
    }
  }

  lemma TellsAfter(rest: seq<Op>, op: Op, i: nat)
    requires OneRowPerKey(ApplyAll(rest)) && i < |Apply(ApplyAll(rest), op)|
    requires i < |ApplyAll(rest)| ==> Tells(ApplyAll(rest)[i], rest, i)
    ensures Tells(Apply(ApplyAll(rest), op)[i], rest + [op], i)
  {
    var rows := ApplyAll(rest);
    assert (rest + [op])[..|rest|] == rest;
    var row := Apply(rows, op)[i];
    if i < |rows| {
      assert row.key == rows[i].key;
      if Saves(op, row.key) { assert Find(rows, row.key).value == i; }
    } else {
      UnsavedHasNoRow(rest, row.key);
    }
  }

  /** After any history of saves and replays, a row's attempts are the first save's plus one
      per later save, its first failure time is the first save's, the rest is the latest
      save's, and it is pending exactly when the last operation on it was a save. */
  lemma {:induction false} TableTellsHistory(ops: seq<Op>, i: nat)
    requires i < |ApplyAll(ops)|
    ensures Tells(ApplyAll(ops)[i], ops, i)
  {
    var rest, op := ops[..|ops| - 1], ops[|ops| - 1];
    assert ops == rest + [op];
    KeysAreUnique(rest);
    if i < |ApplyAll(rest)| { TableTellsHistory(rest, i); }
    TellsAfter(rest, op, i);
  }

  function PendingCount(rows: seq<Row>): nat {
    if rows == [] then 0
    else PendingCount(rows[..|rows| - 1]) + (if rows[|rows| - 1].replayed.None? then 1 else 0)
  }

  /** Saving a failure raises the pending depth by one, unless its row was pending already. */
  lemma {:induction false} DepthAfterUpdate(rows: seq<Row>, i: nat, row: Row)
    requires i < |rows|
    ensures PendingCount(rows[i := row]) ==
      PendingCount(rows) + (if row.replayed.None? then 1 else 0) - (if rows[i].replayed.None? then 1 else 0)
  {
    var n := |rows| - 1;
    if i < n {
      assert rows[i := row][..n] == rows[..n][i := row];
      DepthAfterUpdate(rows[..n], i, row);
    } else {
      assert rows[i := row][..n] == rows[..n];
    }
  }

  lemma DepthAfterSave(rows: seq<Row>, f: Failure, now: int)
    requires Complete(f)
    ensures var at := Find(rows, f.key);
      PendingCount(Apply(rows, SaveOp(f, now))) ==
        PendingCount(rows) + (if at.Some? && rows[at.value].replayed.None? then 0 else 1)
  {
    var at := Find(rows, f.key);
    if at.Some? {
      DepthAfterUpdate(rows, at.value, Merged(rows[at.value], Normalised(f, now)));
    } else {
      assert (rows + [Normalised(f, now)])[..|rows|] == rows;
    }
  }

  /** How the replay endpoint's call of the hook ends. */
  datatype ReplayOutcome = Succeeded | AccountGone | StillFails(error: string)
  datatype Response = NotFound | AlreadyReplayed | Replayed | MarkFailed | ReplayFailed

  class HookFailureRepo {
    var rows: seq<Row>

    constructor ()
      ensures rows == []
    {
      rows := [];
    }

    method Lookup(key: Key) returns (at: Option<nat>)
      ensures at == Find(rows, key)
    {
      var i := |rows|;
      assert rows[..i] == rows;
      while i > 0
        invariant 0 <= i <= |rows|
        invariant Find(rows, key) == Find(rows[..i], key)
      {
        assert rows[..i][..i - 1] == rows[..i - 1];
        if rows[i - 1].key == key { return Some(i - 1); }
        i := i - 1;
      }
      at := None;
    }

    /** The normalisation of the arguments, then INSERT ... ON CONFLICT DO UPDATE. */
    method Save(f: Failure, now: int, fault: WriteFault) returns (ok: bool)
      modifies this
      ensures rows == if fault.Applied() then Apply(old(rows), SaveOp(f, now)) else old(rows)
      ensures ok == (f.key.event != "" && f.key.hook != "" && fault.NoFault?)
      ensures if f.key.event != "" && f.key.hook != "" && fault.Applied() then Recorded(old(rows), rows, f, now) else rows == old(rows)
    {
      if f.key.event == "" || f.key.hook == "" { return false; }
      SaveRecords(rows, f, now);
      var row := Row(f.key, f.payload, f.error, f.attempts, now, now, None);
      if |row.error| > ERR_MESSAGE_MAX_LEN { row := row.(error := row.error[..ERR_MESSAGE_MAX_LEN]); }
      if |row.payload| == 0 { row := row.(payload := "{}"); }
      if f.first.Some? { row := row.(first := f.first.value); }
      if row.attempts <= 0 { row := row.(attempts := 1); }
      if fault.FailedBefore? { return false; }
      var at := Lookup(f.key);
      match at {
        case None =>
          rows := rows + [row];
        case Some(i) =>
          rows := rows[i := rows[i].(payload := row.payload, error := row.error, attempts := rows[i].attempts + 1,
                                     last := row.last, replayed := None)];
      }
      ok := fault.NoFault?;
    }

    method MarkReplayed(id: nat, at: int, fault: WriteFault) returns (ok: bool)
      modifies this
      ensures rows == if fault.Applied() then Apply(old(rows), ReplayOp(id, at)) else old(rows)
      ensures ok == fault.NoFault?
    {
      if fault.Applied() && id < |rows| { rows := rows[id := rows[id].(replayed := Some(at))]; }
      ok := fault.NoFault?;
    }

    method PendingDepth() returns (n: nat)
      ensures n == PendingCount(rows)
    {
      n := 0;
      for i := 0 to |rows|
        invariant n == PendingCount(rows[..i])
      {
        assert rows[..i + 1][..i] == rows[..i];
        if rows[i].replayed.None? { n := n + 1; }
      }
      assert rows[..|rows|] == rows;
    }

    /** The replay endpoint: success and a vanished account stamp the row, a hook that still
        fails saves it again, which counts an attempt and keeps it pending. */
    method ReplayRow(id: nat, outcome: ReplayOutcome, now: int, fault: WriteFault) returns (response: Response)
      requires OneRowPerKey(rows) && forall i :: 0 <= i < |rows| ==> Complete(Failure(rows[i].key, "", "", 0, None))
      modifies this
      ensures id >= |old(rows)| ==> rows == old(rows) && response == NotFound
      ensures id < |old(rows)| && old(rows)[id].replayed.Some? ==> rows == old(rows) && response == AlreadyReplayed
      ensures id < |old(rows)| && old(rows)[id].replayed.None? ==>
        && |rows| == |old(rows)| && (forall i :: 0 <= i < |rows| && i != id ==> rows[i] == old(rows)[i])
        && (fault.FailedBefore? ==> rows == old(rows))
        && (if outcome.StillFails? then response == ReplayFailed else response == if fault.NoFault? then Replayed else MarkFailed)
      ensures id < |old(rows)| && old(rows)[id].replayed.None? && fault.Applied() ==>
        var row := old(rows)[id];
        if outcome.StillFails?
        then Records(rows[id], Some(row), Failure(row.key, row.payload, outcome.error, row.attempts, Some(row.first)), now)
        else rows[id] == row.(replayed := Some(now))
    {
      if id >= |rows| { return NotFound; }
      var row := rows[id];
      if row.replayed.Some? { return AlreadyReplayed; }
      match outcome {
        case Succeeded =>
          var ok := MarkReplayed(id, now, fault);
          response := if ok then Replayed else MarkFailed;
        case AccountGone =>
          var ok := MarkReplayed(id, now, fault);
          response := if ok then Replayed else MarkFailed;
        case StillFails(error) =>
          assert Find(rows, row.key).value == id;
          SaveRecords(rows, Failure(row.key, row.payload, error, row.attempts, Some(row.first)), now);
          var ok := Save(Failure(row.key, row.payload, error, row.attempts, Some(row.first)), now, fault);
          response := ReplayFailed;
      }
    }
  }
}
