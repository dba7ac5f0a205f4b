/** Daily check-ins: the streak, the reward, and the repository's queries. */
module Checkin {
  import opened Prelude
  import opened Calendar
  import opened IsoDates

  const LOOK_BACK := 30

  ghost predicate Dates(rows: set<string>) { forall s :: s in rows ==> IsDate(s) }

  /** Length of the run of consecutive calendar days in `days` that ends at `day`. */
  function Run(days: set<int>, day: int): nat
    decreases |days|
  {
    if day !in days then 0 else 1 + Run(days - {day}, day - 1)
  }

  function Min(a: int, b: int): int { if a < b then a else b }

  /** The day numbers of stored dates. */
  ghost function DaysOf(rows: set<string>): set<int>
    requires Dates(rows)
  {
    set s | s in rows :: ParsedDay(s)
  }

  ghost function ParsedDay(s: string): int { if Parse(s).Some? then DayOf(s) else 0 }

  /** The answer to the repository's query: rows no later than `date`, latest first, at most 30. */
  ghost predicate LatestFirst<T(!new)>(rows: set<T>, less: (T, T) -> bool, date: T, list: seq<T>) {
    && |list| <= LOOK_BACK
    && (forall i :: 0 <= i < |list| ==> list[i] in rows && !less(date, list[i]))
    && (forall i, j :: 0 <= i < j < |list| ==> less(list[j], list[i]))
    && (forall s :: s in rows && !less(date, s) ==> s in list || (|list| == LOOK_BACK && less(s, list[|list| - 1])))
  }

  /** The run at `day` has at least n days exactly when the n days up to it are all there. */
  lemma {:induction false} RunHas(days: set<int>, day: int, n: nat)
    ensures Run(days, day) >= n <==> forall d :: day - n < d <= day ==> d in days
    decreases |days|
  {
    if n > 0 {
      if day in days {
        RunHas(days - {day}, day - 1, n - 1);
        if forall d :: day - n < d <= day - 1 ==> d in days - {day} {
          forall d | day - n < d <= day ensures d in days {
            if d < day { assert d in days - {day}; }
          }
        }
      }
    }
  }

  /** The query's answer as day numbers. */
  ghost predicate LatestDays(days: set<int>, day: int, list: seq<int>) {
    && |list| <= LOOK_BACK
    && (forall i :: 0 <= i < |list| ==> list[i] in days && list[i] <= day)
    && (forall i, j :: 0 <= i < j < |list| ==> list[j] < list[i])
    && (forall d :: d in days && d <= day ==> d in list || (|list| == LOOK_BACK && d < list[|list| - 1]))
  }

  /** A list that steps down day by day for exactly `count` entries shows the run, or 30 days of it. */
  lemma BreakEndsTheRun(days: set<int>, day: int, list: seq<int>, count: nat)
    requires LatestDays(days, day, list) && count <= |list|
    requires forall i :: 0 <= i < count ==> list[i] == day - i
    requires count == |list| || list[count] != day - count
    ensures count == Min(LOOK_BACK, Run(days, day))
  {
    forall d | day - count < d <= day ensures d in days {
      assert list[day - d] == d;
    }
    RunHas(days, day, count);
    if count < LOOK_BACK {
      if count < |list| { assert list[count] <= day - count by { if count > 0 { assert list[count] < list[count - 1]; } } }
      assert day - count !in days;
      RunHas(days, day, count + 1);
    }
  }

  /** Numbers that order rows as `less` does. */
  ghost predicate Ranks<T(!new)>(rows: set<T>, less: (T, T) -> bool, f: T -> int) {
    forall s, t :: s in rows && t in rows ==> (less(s, t) <==> f(s) < f(t)) && (s == t <==> f(s) == f(t))
  }

  ghost predicate StepsBackByOne(texts: set<string>, f: string -> int) {
    forall s, t {:trigger SubtractDay(t), f(s)} :: s in texts && t in texts ==> (s == SubtractDay(t) <==> f(s) == f(t) - 1)
  }

  ghost predicate Agree(s: string, t: string, f: string -> int) {
    (Less(s, t) <==> f(s) < f(t)) && (s == t <==> f(s) == f(t)) && (s == SubtractDay(t) <==> f(s) == f(t) - 1)
  }

  lemma DayNumbersAgree(s: string, t: string, f: string -> int)
    requires IsDate(s) && IsDate(t) && f(s) == ParsedDay(s) && f(t) == ParsedDay(t)
    ensures Agree(s, t, f)
  {
    TextIsTime(s, t);
  }

  ghost predicate AllAgree(texts: set<string>, f: string -> int) {
    forall s, t :: s in texts && t in texts ==> Agree(s, t, f)
  }

  lemma AgreementRanks(texts: set<string>, f: string -> int)
    requires AllAgree(texts, f)
    ensures Ranks(texts, Less, f)
  {
    forall s, t | s in texts && t in texts ensures (Less(s, t) <==> f(s) < f(t)) && (s == t <==> f(s) == f(t)) {
      assert Agree(s, t, f);
    }
  }

  lemma AgreementSteps(texts: set<string>, f: string -> int)
    requires AllAgree(texts, f)
    ensures StepsBackByOne(texts, f)
  {
    forall s, t | s in texts && t in texts ensures s == SubtractDay(t) <==> f(s) == f(t) - 1 {
      assert Agree(s, t, f);
    }
  }

  /** Day numbers order the stored dates as the database does, and step as subtractDay does. */
  lemma DayNumbersRank(texts: set<string>, f: string -> int)
    requires Dates(texts) && forall s :: s in texts ==> f(s) == ParsedDay(s)
    ensures Ranks(texts, Less, f) && StepsBackByOne(texts, f)
  {
    assert AllAgree(texts, f) by {
      forall s, t | s in texts && t in texts ensures Agree(s, t, f) { DayNumbersAgree(s, t, f); }
    }
    AgreementRanks(texts, f);
    AgreementSteps(texts, f);
  }

  function Numbers<T>(list: seq<T>, f: T -> int): (r: seq<int>)
    ensures |r| == |list| && forall i :: 0 <= i < |r| ==> r[i] == f(list[i])
  {
    seq(|list|, i requires 0 <= i < |list| => f(list[i]))
  }

  lemma LatestByNumber<T(!new)>(rows: set<T>, less: (T, T) -> bool, date: T, list: seq<T>, f: T -> int)
    requires Ranks(rows + {date}, less, f) && LatestFirst(rows, less, date, list)
    ensures LatestDays(set s | s in rows :: f(s), f(date), Numbers(list, f))
  {
    var days := set s | s in rows :: f(s);
    forall d | d in days && d <= f(date) ensures d in Numbers(list, f) || (|list| == LOOK_BACK && d < Numbers(list, f)[|list| - 1]) {
      var s :| s in rows && f(s) == d;
      if s in list {
        var i :| 0 <= i < |list| && list[i] == s;
        assert Numbers(list, f)[i] == d;
      }
    }
  }

  /** The loop over the query's answer, for any numbering of the rows. */
  method CountRun(ghost rows: set<string>, ghost f: string -> int, date: string, checkins: seq<string>) returns (count: int)
    requires Ranks(rows + {date}, Less, f) && StepsBackByOne(rows + {date}, f) && LatestFirst(rows, Less, date, checkins)
    ensures count == Min(LOOK_BACK, Run(set s | s in rows :: f(s), f(date)))
  {
    LatestByNumber(rows, Less, date, checkins, f);
    count := 0;
    var i := 0;
    while i < |checkins|
      invariant 0 <= i <= |checkins| && count == i
      invariant forall k :: 0 <= k < i ==> f(checkins[k]) == f(date) - k
    {
      if i == 0 {
        if checkins[0] != date { break; }
        count := 1;
      } else {
        if checkins[i] != SubtractDay(checkins[i - 1]) { break; }
        count := count + 1;
      }
      i := i + 1;
    }
    BreakEndsTheRun(set s | s in rows :: f(s), f(date), Numbers(checkins, f), i);
  }

  /** It counts min(30, run of consecutive calendar days ending at the date). */
  method CountConsecutive(ghost rows: set<string>, date: string, checkins: seq<string>) returns (count: int)
    requires Dates(rows) && IsDate(date) && LatestFirst(rows, Less, date, checkins)
    ensures count == Min(LOOK_BACK, Run(DaysOf(rows), ParsedDay(date)))
  {
    ghost var f := s => ParsedDay(s);
    DayNumbersRank(rows + {date}, f);
    count := CountRun(rows, f, date, checkins);
    assert DaysOf(rows) == set s | s in rows :: f(s);
  }

  // ---- The reward ----

  const BASE_REWARD: real := 0.10
  const BONUS_STEP := 7
  const BONUS_FACTOR: real := 1.5
  const MAX_REWARD: real := 1.0

  function Power(x: real, n: nat): real { if n == 0 then 1.0 else Power(x, n - 1) * x }

  /** One bonus for every seven days; Go's division truncates, so a negative streak earns none. */
  function Tier(streak: int): nat { if streak < 0 then 0 else streak / BONUS_STEP }

  function Reward(streak: int): real {
    var r := BASE_REWARD * Power(BONUS_FACTOR, Tier(streak));
    if r > MAX_REWARD then MAX_REWARD else r
  }

  method CalculateCheckinReward(consecutiveDays: int) returns (reward: real)
    ensures reward == Reward(consecutiveDays)
  {
    var streakTier := if consecutiveDays < 0 then -((-consecutiveDays) / BONUS_STEP) else consecutiveDays / BONUS_STEP;
    var multiplier := 1.0;
    var i := 0;
    while i < streakTier
      invariant 0 <= i && (i <= streakTier || i == 0)
      invariant multiplier == Power(BONUS_FACTOR, i)
    {
      multiplier := multiplier * BONUS_FACTOR;
      i := i + 1;
    }
    reward := BASE_REWARD * multiplier;
    if reward > MAX_REWARD { reward := MAX_REWARD; }
  }

  lemma {:induction false} PowerGrows(m: nat, n: nat)
    requires m <= n
    ensures 1.0 <= Power(BONUS_FACTOR, m) <= Power(BONUS_FACTOR, n)
    decreases n
  {
    if n == 0 {
    } else if m == n {
      PowerGrows(m - 1, n - 1);
    } else {
      PowerGrows(m, n - 1);
    }
  }

  /** A longer streak never earns less. */
  lemma RewardIsMonotone(a: int, b: int)
    requires a <= b
    ensures Reward(a) <= Reward(b)
  {
    PowerGrows(Tier(a), Tier(b));
  }

  lemma FirstPowers()
    ensures Power(BONUS_FACTOR, 1) == 1.5 && Power(BONUS_FACTOR, 2) == 2.25 && Power(BONUS_FACTOR, 3) == 3.375
    ensures Power(BONUS_FACTOR, 4) == 5.0625 && Power(BONUS_FACTOR, 5) == 7.59375 && Power(BONUS_FACTOR, 6) == 11.390625
  {
    assert Power(BONUS_FACTOR, 1) == 1.5;
    assert Power(BONUS_FACTOR, 2) == 2.25;
    assert Power(BONUS_FACTOR, 3) == 3.375;
    assert Power(BONUS_FACTOR, 4) == 5.0625;
  }

  /** The cap is reached from the sixth tier on, that is from a streak of 42 days. */
  lemma CapIff(streak: int)
    ensures Reward(streak) == MAX_REWARD <==> streak >= 42
    ensures BASE_REWARD <= Reward(streak) <= MAX_REWARD
  {
    FirstPowers();
    PowerGrows(0, Tier(streak));
    if streak >= 42 { PowerGrows(6, Tier(streak)); } else { PowerGrows(Tier(streak), 5); }
  }

  /** What a streak of any length earns: one and a half times more every seven days. */
  lemma RewardTable(streak: int)
    ensures streak < 7 ==> Reward(streak) == 0.1
    ensures 7 <= streak < 14 ==> Reward(streak) == 0.15
    ensures 14 <= streak < 21 ==> Reward(streak) == 0.225
    ensures 21 <= streak < 28 ==> Reward(streak) == 0.3375
    ensures 28 <= streak < 35 ==> Reward(streak) == 0.50625
    ensures 35 <= streak < 42 ==> Reward(streak) == 0.759375
    ensures streak >= 42 ==> Reward(streak) == 1.0
  {
    FirstPowers();
    CapIff(streak);
    assert Power(BONUS_FACTOR, 0) == 1.0;
    assert streak < 7 || Tier(streak) in {1, 2, 3, 4, 5} || streak >= 42;
  }

  /** A check-in counts at most 30 earlier days, so it never earns more than 0.50625. */
  lemma CapIsOutOfReach(streak: int)
    requires streak <= LOOK_BACK + 1
    ensures Reward(streak) <= 0.50625 && Reward(streak) != MAX_REWARD
  {
    FirstPowers();
    RewardIsMonotone(streak, LOOK_BACK + 1);
  }
}
