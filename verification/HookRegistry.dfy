/** The hook engine: retries with backoff, one metric, one dead letter. */
module HookRegistry {
  import opened Prelude
  import opened HookFailures

  /** Durations in nanoseconds. */
  datatype RetryPolicy = RetryPolicy(maxAttempts: int, initialBackoff: int, maxBackoff: int, jitterFraction: real)

  const MS := 1_000_000
  const DEFAULT_POLICY := RetryPolicy(3, 200 * MS, 2000 * MS, 0.2)

  function WithDefaults(p: RetryPolicy): (r: RetryPolicy)
    ensures Usable(r)
    ensures Usable(p) ==> r == p
  {
    RetryPolicy(if p.maxAttempts <= 0 then DEFAULT_POLICY.maxAttempts else p.maxAttempts,
                if p.initialBackoff <= 0 then DEFAULT_POLICY.initialBackoff else p.initialBackoff,
                if p.maxBackoff <= 0 then DEFAULT_POLICY.maxBackoff else p.maxBackoff,
                p.jitterFraction)
  }

  predicate Usable(p: RetryPolicy) { p.maxAttempts > 0 && p.initialBackoff > 0 && p.maxBackoff > 0 }

  // ---- Backoff ----

  function Pow2(n: nat): nat { if n == 0 then 1 else 2 * Pow2(n - 1) }

  /** `1 << (attempt-1)` and the product are int64; then the cap. */
  function PlainBackoff(p: RetryPolicy, attempt: int): int
    requires attempt >= 1
  {
    var mult := Wrap64(Pow2(attempt - 1));
    var d := Wrap64(mult * p.initialBackoff);
    if d > p.maxBackoff then p.maxBackoff else d
  }

  /** `jitter` is the random factor, between -1 and 1 times the policy's fraction. */
  function Backoff(p: RetryPolicy, attempt: int, jitter: real): int
    requires attempt >= 1
  {
    var d := PlainBackoff(p, attempt);
    if p.jitterFraction > 0.0 then Jittered(d, p.jitterFraction, jitter) else d
  }

  function Jittered(d: int, fraction: real, jitter: real): int {
    var j := (d as real * (1.0 + jitter * fraction)).Floor;
    if j < 0 then 0 else j
  }

  /** `n` is the scaled duration cut to whole nanoseconds, or 0 for a negative one. */
  predicate CutTo(scaled: real, n: int) {
    if scaled < 0.0 then n == 0 else n as real <= scaled < n as real + 1.0
  }

  lemma FloorCuts(x: real)
    ensures CutTo(x, if x.Floor < 0 then 0 else x.Floor)
  {
  }

  lemma JitteredIsCut(d: int, fraction: real, jitter: real, scaled: real)
    requires scaled == d as real * (1.0 + jitter * fraction)
    ensures CutTo(scaled, Jittered(d, fraction, jitter))
  {
    FloorCuts(scaled);
  }

  /** The pause: the plain backoff without a jitter fraction; otherwise that scaled by the random
      factor and cut to whole nanoseconds, never negative. */
  lemma BackoffIsScaled(p: RetryPolicy, attempt: int, jitter: real, scaled: real)
    requires attempt >= 1 && scaled == PlainBackoff(p, attempt) as real * (1.0 + jitter * p.jitterFraction)
    ensures if p.jitterFraction > 0.0 then CutTo(scaled, Backoff(p, attempt, jitter))
            else Backoff(p, attempt, jitter) == PlainBackoff(p, attempt)
  {
    JitteredIsCut(PlainBackoff(p, attempt), p.jitterFraction, jitter, scaled);
  }

  lemma WrapIgnoresMultiples(x: int, q: int)
    ensures Wrap64(x + q * TWO64) == Wrap64(x)
  {
    var y := x + TWO63;
    assert (y + q * TWO64) % TWO64 == y % TWO64;
  }

  lemma WrapOfProduct(a: int, b: int)
    ensures Wrap64(Wrap64(a) * b) == Wrap64(a * b)
  {
    var q := (a + TWO63) / TWO64;
    assert a == Wrap64(a) + q * TWO64;
    assert a * b == Wrap64(a) * b + (q * b) * TWO64;
    WrapIgnoresMultiples(Wrap64(a) * b, q * b);
  }

  /** Doubling from the initial backoff up to the maximum: this is what the backoff is, as
      long as the product fits int64; beyond, only while the wrapped product still tops the
      maximum. */
  lemma BackoffDoublesIff(p: RetryPolicy, attempt: int)
    requires Usable(p) && p.maxBackoff < TWO63 && attempt >= 1
    ensures var ideal := Pow2(attempt - 1) * p.initialBackoff;
      PlainBackoff(p, attempt) == (if ideal > p.maxBackoff then p.maxBackoff else ideal)
      <==> ideal < TWO63 || Wrap64(ideal) >= p.maxBackoff
  {
    WrapOfProduct(Pow2(attempt - 1), p.initialBackoff);
    var ideal := Pow2(attempt - 1) * p.initialBackoff;
    assert ideal >= 0;
  }

  lemma {:induction false} Pow2Grows(m: nat, n: nat)
    requires m <= n
    ensures Pow2(m) <= Pow2(n)
  {
    if m < n { Pow2Grows(m, n - 1); }
  }

  lemma Pow2Of35()
    ensures Pow2(35) == 0x8_0000_0000
  {
    assert Pow2(7) == 128;
    assert Pow2(14) == 128 * 128;
    assert Pow2(21) == 128 * 128 * 128;
    assert Pow2(28) == 128 * 128 * 128 * 128;
  }

  /** With the default initial backoff the product fits for the first 36 attempts; at the
      37th it wraps to a negative duration, which no cap catches. */
  lemma DefaultDoublesUpTo36(p: RetryPolicy, attempt: int)
    requires Usable(p) && p.maxBackoff < TWO63 && p.initialBackoff == DEFAULT_POLICY.initialBackoff && attempt >= 1
    ensures attempt <= 36 ==> Pow2(attempt - 1) * p.initialBackoff < TWO63
    ensures attempt == 37 ==> PlainBackoff(p, attempt) < 0
  {
    Pow2Of35();
    if attempt <= 36 {
      Pow2Grows(attempt - 1, 35);
    } else if attempt == 37 {
      assert Pow2(36) == 0x10_0000_0000;
      WrapOfProduct(Pow2(36), p.initialBackoff);
    }
  }

  lemma JitteredDefaults(j1: real, j2: real)
    requires -1.0 <= j1 <= 1.0 && -1.0 <= j2 <= 1.0
    ensures 160 * MS <= Jittered(200 * MS, 0.2, j1) <= 240 * MS
    ensures 320 * MS <= Jittered(400 * MS, 0.2, j2) <= 480 * MS
  {
    var x1, x2 := 200_000_000.0 * (1.0 + j1 * 0.2), 400_000_000.0 * (1.0 + j2 * 0.2);
    assert 160_000_000.0 <= x1 <= 240_000_000.0;
    assert 320_000_000.0 <= x2 <= 480_000_000.0;
  }

  /** The two pauses of the default policy together never exceed 720 ms, whatever the jitter. */
  lemma DefaultSleeps(j1: real, j2: real)
    requires -1.0 <= j1 <= 1.0 && -1.0 <= j2 <= 1.0
    ensures 480 * MS <= Backoff(DEFAULT_POLICY, 1, j1) + Backoff(DEFAULT_POLICY, 2, j2) <= 720 * MS
  {
    assert Pow2(0) == 1 && Pow2(1) == 2;
    assert PlainBackoff(DEFAULT_POLICY, 1) == 200 * MS && PlainBackoff(DEFAULT_POLICY, 2) == 400 * MS;
    JitteredDefaults(j1, j2);
  }

  // ---- The engine ----

  datatype Outcome = SucceededFirstTry | RetrySucceeded | Dlq

  /** An invocation returns nil, or an error; a wait between attempts can be cancelled. */
  datatype Attempt = Ok | Err(error: string)

  const CANCELLED := "context canceled"

  /** The attempt at which the engine stops, trying from the k-th on. */
  function Stop(policy: RetryPolicy, results: int -> Attempt, cancelled: int -> bool, k: int): (n: int)
    requires 1 <= k <= policy.maxAttempts
    ensures k <= n <= policy.maxAttempts
    decreases policy.maxAttempts - k
  {
    if results(k).Ok? || k == policy.maxAttempts || cancelled(k) then k else Stop(policy, results, cancelled, k + 1)
  }

  /** It is the first attempt that succeeds, is cancelled afterwards, or is the last one allowed. */
  lemma {:induction false} StopIsFirst(policy: RetryPolicy, results: int -> Attempt, cancelled: int -> bool, k: int, n: int)
    requires 1 <= k <= n <= policy.maxAttempts
    ensures n == Stop(policy, results, cancelled, k) <==>
      (results(n).Ok? || cancelled(n) || n == policy.maxAttempts) && forall i :: k <= i < n ==> results(i).Err? && !cancelled(i)
    decreases policy.maxAttempts - k
  {
    if k < n { StopIsFirst(policy, results, cancelled, k + 1, n); }
  }

  /** The pauses after the first m attempts. */
  predicate Slept(sleeps: seq<int>, pause: int -> int, m: nat) {
    |sleeps| == m && forall i :: 0 <= i < m ==> sleeps[i] == pause(i + 1)
  }

  /** The policy's backoff with the given random factors. */
  function Pauses(policy: RetryPolicy, jitter: int -> real): int -> int {
    k => if k < 1 then 0 else Backoff(policy, k, jitter(k))
  }

  function LastError(policy: RetryPolicy, results: int -> Attempt, n: int): string {
    if n < policy.maxAttempts then CANCELLED else if results(n).Err? then results(n).error else ""
  }

  /** The dead-letter table after a hook has run. */
  function Buried(rows: seq<Row>, key: Key, payload: string, policy: RetryPolicy, results: int -> Attempt,
                  cancelled: int -> bool, now: int, fault: WriteFault): seq<Row>
    requires Usable(policy)
  {
    var n := Stop(policy, results, cancelled, 1);
    if results(n).Ok? || fault.FailedBefore? then rows
    else Apply(rows, SaveOp(Failure(key, payload, LastError(policy, results, n), policy.maxAttempts, None), now))
  }

  /** A first dead letter tells how often the hook was really tried exactly when no
      cancellation cut the retries short. */
  lemma LetterCountsIff(rows: seq<Row>, key: Key, payload: string, policy: RetryPolicy, results: int -> Attempt,
                        cancelled: int -> bool, now: int, fault: WriteFault)
    requires Usable(policy) && fault.Applied() && key.event != "" && key.hook != "" && Find(rows, key).None?
    requires forall k :: 1 <= k <= policy.maxAttempts ==> results(k).Err?
    ensures var rows' := Buried(rows, key, payload, policy, results, cancelled, now, fault);
      && |rows'| == |rows| + 1 && rows'[|rows|].replayed.None?
      && (rows'[|rows|].attempts == Stop(policy, results, cancelled, 1) <==> forall k :: 1 <= k < policy.maxAttempts ==> !cancelled(k))
  {
    var n := Stop(policy, results, cancelled, 1);
    StopIsFirst(policy, results, cancelled, 1, n);
  }

  class Registry {
    var policy: RetryPolicy
    var metrics: seq<Outcome>
    var invocations: nat
    const dlq: HookFailureRepo?

    constructor (dlq: HookFailureRepo?)
      ensures Usable(policy) && policy == DEFAULT_POLICY && this.dlq == dlq && metrics == [] && invocations == 0
    {
      policy, metrics, invocations := DEFAULT_POLICY, [], 0;
      this.dlq := dlq;
    }

    method WithRetryPolicy(p: RetryPolicy)
      modifies this`policy
      ensures policy == WithDefaults(p)
    {
      policy := p;
      if policy.maxAttempts <= 0 { policy := policy.(maxAttempts := DEFAULT_POLICY.maxAttempts); }
      if policy.initialBackoff <= 0 { policy := policy.(initialBackoff := DEFAULT_POLICY.initialBackoff); }
      if policy.maxBackoff <= 0 { policy := policy.(maxBackoff := DEFAULT_POLICY.maxBackoff); }
    }

    /** One outcome, and one dead letter if there is a store. Its attempts are the policy's,
        also when a cancellation cut them short. */
    method GiveUp(key: Key, payload: string, lastErr: string, now: int, fault: WriteFault)
      modifies this`metrics, dlq
      ensures metrics == old(metrics) + [Dlq]
      ensures dlq != null ==> dlq.rows == if fault.FailedBefore? then old(dlq.rows)
        else Apply(old(dlq.rows), SaveOp(Failure(key, payload, lastErr, policy.maxAttempts, None), now))
      ensures dlq != null ==>
        if key.event != "" && key.hook != "" && fault.Applied()
        then Recorded(old(dlq.rows), dlq.rows, Failure(key, payload, lastErr, policy.maxAttempts, None), now)
        else dlq.rows == old(dlq.rows)
    {
      metrics := metrics + [Dlq];
      if dlq != null {
        var saved := dlq.Save(Failure(key, payload, lastErr, policy.maxAttempts, None), now, fault);
      }
    }

    /** The retry loop, up to its exit by success or to `giveup`. */
    method TryInvoke(results: int -> Attempt, cancelled: int -> bool, pause: int -> int) returns (ok: bool, lastErr: string, sleeps: seq<int>)
      requires Usable(policy)
      modifies this`metrics, this`invocations
      ensures var n := Stop(policy, results, cancelled, 1);
        && invocations == old(invocations) + n && ok == results(n).Ok?
        && metrics == (if ok then old(metrics) + [if n == 1 then SucceededFirstTry else RetrySucceeded] else old(metrics))
        && Slept(sleeps, pause, if !ok && n < policy.maxAttempts then n else n - 1)
        && (!ok ==> lastErr == LastError(policy, results, n))
        && (!ok ==> lastErr == if n < policy.maxAttempts then "context canceled" else results(n).error)
    {
      lastErr, sleeps := "", [];
      var p := policy;
      var attempt := 1;
      while attempt <= p.maxAttempts
        invariant 1 <= attempt <= p.maxAttempts
        invariant Stop(p, results, cancelled, 1) == Stop(p, results, cancelled, attempt)
        invariant invocations == old(invocations) + attempt - 1 && metrics == old(metrics)
        invariant Slept(sleeps, pause, attempt - 1)
        decreases p.maxAttempts - attempt
      {
        invocations := invocations + 1;
        var result := results(attempt);
        if result.Ok? {
          metrics := metrics + [if attempt > 1 then RetrySucceeded else SucceededFirstTry];
          return true, "", sleeps;
        }
        lastErr := result.error;
        if attempt == p.maxAttempts { return false, lastErr, sleeps; }
        sleeps := sleeps + [pause(attempt)];
        if cancelled(attempt) { return false, CANCELLED, sleeps; }
        attempt := attempt + 1;
      }
    }

    /** The engine stops at the first success, at a cancelled wait or after the last attempt,
        records exactly one outcome, and saves a dead letter exactly when nothing succeeded. */
    method RunHook(key: Key, payload: string, results: int -> Attempt, cancelled: int -> bool,
                   jitter: int -> real, now: int, fault: WriteFault) returns (sleeps: seq<int>)
      requires Usable(policy)
      modifies this`metrics, this`invocations, dlq
      ensures var n := Stop(policy, results, cancelled, 1);
        && invocations == old(invocations) + n
        && metrics == old(metrics) + [if results(n).Err? then Dlq else if n == 1 then SucceededFirstTry else RetrySucceeded]
        && |sleeps| == (if results(n).Err? && n < policy.maxAttempts then n else n - 1)
        && forall i :: 0 <= i < |sleeps| ==> sleeps[i] == Backoff(policy, i + 1, jitter(i + 1))
      ensures dlq != null ==> dlq.rows == Buried(old(dlq.rows), key, payload, policy, results, cancelled, now, fault)
      ensures dlq != null ==>
        var n := Stop(policy, results, cancelled, 1);
        if results(n).Err? && fault.Applied() && key.event != "" && key.hook != "" then
          Recorded(old(dlq.rows), dlq.rows,
                   Failure(key, payload, if n < policy.maxAttempts then "context canceled" else results(n).error, policy.maxAttempts, None), now)
        else dlq.rows == old(dlq.rows)
    {
      var ok, lastErr;
      ok, lastErr, sleeps := TryInvoke(results, cancelled, Pauses(policy, jitter));
      if !ok { GiveUp(key, payload, lastErr, now, fault); }
    }
  }
}
