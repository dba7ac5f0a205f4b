/** Expiry dates of subscriptions. */
module BillingDates {
  import opened Prelude
  import opened Calendar

  /** A UTC time: a date and the nanoseconds since its midnight. */
  datatype Time = Time(date: Date, clock: int)

  predicate Earlier(a: Time, b: Time) {
    Before(a.date, b.date) || (a.date == b.date && a.clock < b.clock)
  }

  /** Day 0 of the next month is the last day of this one. */
  function DaysInMonth(year: int, month: int): int { TimeDate(year, month + 1, 0).day }

  lemma CarryAgain(year: int, month: int, k: int)
    ensures CarriedYear(CarriedYear(year, month), CarriedMonth(month) + k) == CarriedYear(year, month + k)
    ensures CarriedMonth(CarriedMonth(month) + k) == CarriedMonth(month + k)
  {
    var q, r := (month - 1) / 12, (month - 1) % 12;
    assert month - 1 + k == 12 * q + (r + k);
    DivModShift(r + k, q);
  }

  lemma DivModShift(n: int, q: int)
    ensures (12 * q + n) / 12 == q + n / 12 && (12 * q + n) % 12 == n % 12
  {
  }

  /** The day-0 trick gives the Gregorian month length, for any month number carried into its year. */
  lemma DaysInMonthIsGregorian(year: int, month: int)
    ensures DaysInMonth(year, month) == MonthLength(CarriedYear(year, month), CarriedMonth(month))
  {
    var y, m := CarriedYear(year, month), CarriedMonth(month);
    var last := Date(y, m, MonthLength(y, m));
    CarryAgain(year, month, 1);
    var ny, nm := CarriedYear(y, m + 1), CarriedMonth(m + 1);
    assert ny == CarriedYear(year, month + 1) && nm == CarriedMonth(month + 1);
    assert DayNumber(Date(ny, nm, 0)) == DayNumber(last) by {
      MonthsFit(y, m);
      if m == 12 {
        assert ny == y + 1 && nm == 1;
        YearStep(y);
      } else {
        assert ny == y && nm == m + 1;
      }
    }
    TimeDateIs(year, month + 1, 0, last);
  }

  method LastDay(year: int, month: int) returns (n: int)
    ensures n == MonthLength(CarriedYear(year, month), CarriedMonth(month))
  {
    n := DaysInMonth(year, month);
    DaysInMonthIsGregorian(year, month);
  }

  method Rebuild(year: int, month: int, day: int) returns (d: Date)
    requires Valid(Date(CarriedYear(year, month), CarriedMonth(month), day))
    ensures d == Date(CarriedYear(year, month), CarriedMonth(month), day)
  {
    TimeDateIs(year, month, day, Date(CarriedYear(year, month), CarriedMonth(month), day));
    d := TimeDate(year, month, day);
  }

  /** What adding months means: the month moves by `months`, the day is clamped to its end. */
  function Shifted(d: Date, months: int): Date {
    var y, m := CarriedYear(d.year, d.month + months), CarriedMonth(d.month + months);
    Date(y, m, if d.day > MonthLength(y, m) then MonthLength(y, m) else d.day)
  }

  /** Months counted from year 0. */
  function MonthIndex(d: Date): int { 12 * d.year + d.month - 1 }

  /** Lands on a valid date exactly `months` months on, for any number of months. */
  lemma ShiftedIsRight(d: Date, months: int)
    requires Valid(d)
    ensures Valid(Shifted(d, months)) && MonthIndex(Shifted(d, months)) == MonthIndex(d) + months
    ensures Shifted(d, months).day <= d.day
    ensures Shifted(d, months).day < d.day ==> Shifted(d, months).day == MonthLength(Shifted(d, months).year, Shifted(d, months).month)
  {
  }

  /** addMonthsClamped: the loop carries the month, the day is clamped, time.Date rebuilds. */
  method AddMonthsClamped(t: Time, months: int) returns (r: Time)
    requires Valid(t.date)
    ensures r == Time(Shifted(t.date, months), t.clock)
  {
    var targetMonth, targetYear := t.date.month + months, t.date.year;
    while targetMonth > 12
      invariant CarriedYear(targetYear, targetMonth) == CarriedYear(t.date.year, t.date.month + months)
      invariant CarriedMonth(targetMonth) == CarriedMonth(t.date.month + months)
    {
      DivModShift(targetMonth - 1, -1);
      targetMonth := targetMonth - 12;
      targetYear := targetYear + 1;
    }
    var lastDay := LastDay(targetYear, targetMonth);
    var d := t.date.day;
    if d > lastDay { d := lastDay; }
    var date := Rebuild(targetYear, targetMonth, d);
    r := Time(date, t.clock);
  }

  // ---- Repeated and combined shifts ----

  function Total(steps: seq<int>): int {
    if steps == [] then 0 else Total(steps[..|steps| - 1]) + steps[|steps| - 1]
  }

  function ShiftedBy(d: Date, steps: seq<int>): Date {
    if steps == [] then d else Shifted(ShiftedBy(d, steps[..|steps| - 1]), steps[|steps| - 1])
  }

  /** Renewing month by month, or by any steps in any directions, ends in the same month as
      one combined shift, never later, and at most three days earlier: drift does not add up. */
  lemma {:induction false} DriftIsBounded(d: Date, steps: seq<int>)
    requires Valid(d)
    ensures var r, once := ShiftedBy(d, steps), Shifted(d, Total(steps));
      && Valid(r) && r.year == once.year && r.month == once.month
      && r.day <= once.day <= r.day + 3
      && (r.day < 28 ==> r.day == d.day)
  {
    if steps != [] {
      var rest, k := steps[..|steps| - 1], steps[|steps| - 1];
      DriftIsBounded(d, rest);
      var mid := ShiftedBy(d, rest);
      ShiftedIsRight(mid, k);
      ShiftedIsRight(d, Total(rest));
      ShiftedIsRight(d, Total(steps));
      SameIndexSameMonth(ShiftedBy(d, steps), Shifted(d, Total(steps)));
    } else {
      ShiftedIsRight(d, 0);
      SameIndexSameMonth(d, Shifted(d, 0));
    }
  }

  lemma SameIndexSameMonth(a: Date, b: Date)
    requires Valid(a) && Valid(b) && MonthIndex(a) == MonthIndex(b)
    ensures a.year == b.year && a.month == b.month
  {
  }

  /** A later date never expires earlier. */
  lemma ShiftedIsMonotone(a: Date, b: Date, months: int)
    requires Valid(a) && Valid(b) && NotAfter(a, b)
    ensures NotAfter(Shifted(a, months), Shifted(b, months))
  {
    ShiftedIsRight(a, months);
    ShiftedIsRight(b, months);
    if MonthIndex(a) == MonthIndex(b) {
      SameIndexSameMonth(a, b);
    }
  }

  /** The dates of two days merge exactly when they are of one month and the earlier one
      already reaches the last day of the target month. */
  lemma DatesMergeIff(a: Date, b: Date, months: int)
    requires Valid(a) && Valid(b) && Before(a, b)
    ensures Shifted(a, months) == Shifted(b, months) <==>
      a.year == b.year && a.month == b.month
      && a.day >= MonthLength(CarriedYear(a.year, a.month + months), CarriedMonth(a.month + months))
  {
    ShiftedIsRight(a, months);
    ShiftedIsRight(b, months);
    if MonthIndex(a) == MonthIndex(b) { SameIndexSameMonth(a, b); }
  }

  /** A later time of day can: two times come out swapped exactly when clamping merges
      their dates and the earlier date has the later clock. */
  lemma TimesSwapIff(a: Time, b: Time, months: int)
    requires Valid(a.date) && Valid(b.date) && Earlier(a, b)
    ensures Earlier(Time(Shifted(b.date, months), b.clock), Time(Shifted(a.date, months), a.clock)) <==>
      a.date.year == b.date.year && a.date.month == b.date.month && b.clock < a.clock
      && a.date.day >= MonthLength(CarriedYear(a.date.year, a.date.month + months), CarriedMonth(a.date.month + months))
  {
    ShiftedIsMonotone(a.date, b.date, months);
    if a.date != b.date { DatesMergeIff(a.date, b.date, months); }
  }

  /** Concretely: 30 January 23:00 and 31 January 01:00, a month on. */
  lemma TimesCanSwap()
    ensures var a, b := Time(Date(2023, 1, 30), 23), Time(Date(2023, 1, 31), 1);
      && Earlier(a, b) && Valid(a.date) && Valid(b.date)
      && Earlier(Time(Shifted(b.date, 1), b.clock), Time(Shifted(a.date, 1), a.clock))
  {
    TimesSwapIff(Time(Date(2023, 1, 30), 23), Time(Date(2023, 1, 31), 1), 1);
  }

  // ---- Billing cycles ----

  const WEEKLY := "weekly"
  const MONTHLY := "monthly"
  const QUARTERLY := "quarterly"
  const YEARLY := "yearly"
  const FOREVER := "forever"
  const ONE_TIME := "one_time"

  function ExpiryDate(d: Date, cycle: string): Date {
    if cycle == WEEKLY then AddDate(d, 0, 7)
    else if cycle == YEARLY then AddDate(d, 1, 0)
    else Shifted(d, if cycle == QUARTERLY then 3 else 1)
  }

  /** Where a cycle from d ends, read off the calendar: seven days on; the same day a year on,
      with 1 March for 29 February; or one or three months on, on the same day or the last. */
  predicate EndsOn(d: Date, cycle: string, e: Date)
    requires Valid(d)
  {
    && Valid(e)
    && if cycle == WEEKLY then DayNumber(e) == DayNumber(d) + 7
       else if cycle == YEARLY then
         if d.month == 2 && d.day == 29 then e == Date(d.year + 1, 3, 1) else e == Date(d.year + 1, d.month, d.day)
       else
         && 12 * e.year + e.month == 12 * d.year + d.month + (if cycle == QUARTERLY then 3 else 1)
         && e.day == if d.day > MonthLength(e.year, e.month) then MonthLength(e.year, e.month) else d.day
  }

  lemma ExpiryDateEndsOn(d: Date, cycle: string)
    requires Valid(d)
    ensures EndsOn(d, cycle, ExpiryDate(d, cycle))
  {
    if cycle == WEEKLY { WeeklyIsSevenDays(d); }
    else if cycle == YEARLY { YearlyIsTheSameDay(d); }
    else { ShiftedIsRight(d, if cycle == QUARTERLY then 3 else 1); }
  }

  /** There is only one such date, so EndsOn determines the expiry. */
  lemma EndsOnOneDate(d: Date, cycle: string, e: Date, f: Date)
    requires Valid(d) && EndsOn(d, cycle, e) && EndsOn(d, cycle, f)
    ensures e == f
  {
    if cycle == WEEKLY {
      if Before(e, f) { DayNumberIsMonotone(e, f); } else if Before(f, e) { DayNumberIsMonotone(f, e); }
    }
  }

  method CalculateExpiry(from: Time, cycle: string) returns (expiry: Option<Time>)
    requires Valid(from.date)
    ensures expiry.None? <==> cycle == FOREVER || cycle == ONE_TIME
    ensures expiry.Some? ==> EndsOn(from.date, cycle, expiry.value.date) && expiry.value.clock == from.clock
  {
    ExpiryDateEndsOn(from.date, cycle);
    var t := from;
    if cycle == WEEKLY {
      t := Time(AddDate(from.date, 0, 7), from.clock);
    } else if cycle == MONTHLY {
      t := AddMonthsClamped(from, 1);
    } else if cycle == QUARTERLY {
      t := AddMonthsClamped(from, 3);
    } else if cycle == YEARLY {
      t := Time(AddDate(from.date, 1, 0), from.clock);
    } else if cycle == FOREVER || cycle == ONE_TIME {
      return None;
    } else {
      t := AddMonthsClamped(from, 1);
    }
    expiry := Some(t);
  }

  function Days(a: Date, b: Date): int
    requires Valid(a) && Valid(b)
  {
    DayNumber(b) - DayNumber(a)
  }

  lemma WeeklyIsSevenDays(d: Date)
    requires Valid(d)
    ensures Valid(AddDate(d, 0, 7)) && Days(d, AddDate(d, 0, 7)) == 7
  {
    AddDaysMoves(d, 7);
  }

  function FirstOf(y: int, m: int): int
    requires 1 <= m <= 12
  {
    YearStart(y) + MonthStart(y, m)
  }

  predicate IsNext(y: int, m: int, y1: int, m1: int) {
    if m == 12 then y1 == y + 1 && m1 == 1 else y1 == y && m1 == m + 1
  }

  lemma CarryIsNext(y: int, m: int, k: int)
    ensures IsNext(CarriedYear(y, m + k), CarriedMonth(m + k), CarriedYear(y, m + k + 1), CarriedMonth(m + k + 1))
  {
    var n := m + k - 1;
    assert n == 12 * (n / 12) + n % 12;
    assert n + 1 == 12 * (n / 12) + (n % 12 + 1);
    DivModShift(n % 12 + 1, n / 12);
  }

  lemma NextFirst(y: int, m: int, y1: int, m1: int)
    requires 1 <= m <= 12 && 1 <= m1 <= 12 && IsNext(y, m, y1, m1)
    ensures FirstOf(y1, m1) == FirstOf(y, m) + MonthLength(y, m)
  {
    if m == 12 {
      YearStep(y);
      TwelveMonthsMakeAYear(y);
    } else {
      MonthsFit(y, m);
    }
  }

  lemma NextMonthIs(y: int, m: int)
    requires 1 <= m <= 12
    ensures FirstOf(CarriedYear(y, m + 1), CarriedMonth(m + 1)) == FirstOf(y, m) + MonthLength(y, m)
  {
    CarryIsNext(y, m, 0);
    CarryNothing(y, m);
    NextFirst(y, m, CarriedYear(y, m + 1), CarriedMonth(m + 1));
  }

  lemma MonthlyIsFourWeeksOrMore(d: Date)
    requires Valid(d)
    ensures Valid(Shifted(d, 1)) && 28 <= Days(d, Shifted(d, 1)) <= 31
  {
    ShiftedIsRight(d, 1);
    NextMonthIs(d.year, d.month);
  }

  lemma QuarterLengths(y: int, m: int)
    requires 1 <= m <= 12
    ensures 89 <= QuarterLength(y, m) <= 92
  {
  }

  /** From the first of a month to the first three months later. */
  lemma ThreeMonthsOn(y: int, m: int)
    requires 1 <= m <= 12
    ensures FirstOf(CarriedYear(y, m + 3), CarriedMonth(m + 3)) == FirstOf(y, m) + QuarterLength(y, m)
  {
    NextMonthIs(y, m);
    CarryIsNext(y, m, 1);
    NextFirst(CarriedYear(y, m + 1), CarriedMonth(m + 1), CarriedYear(y, m + 2), CarriedMonth(m + 2));
    CarryIsNext(y, m, 2);
    NextFirst(CarriedYear(y, m + 2), CarriedMonth(m + 2), CarriedYear(y, m + 3), CarriedMonth(m + 3));
  }

  function QuarterLength(y: int, m: int): int
    requires 1 <= m <= 12
  {
    MonthLength(y, m) + MonthLength(CarriedYear(y, m + 1), CarriedMonth(m + 1))
    + MonthLength(CarriedYear(y, m + 2), CarriedMonth(m + 2))
  }

  lemma QuarterlyIsAQuarter(d: Date)
    requires Valid(d)
    ensures Valid(Shifted(d, 3)) && 89 <= Days(d, Shifted(d, 3)) <= 92
  {
    ShiftedIsRight(d, 3);
    ThreeMonthsOn(d.year, d.month);
    QuarterLengths(d.year, d.month);
    if Shifted(d, 3).day < d.day { ClampedQuarter(d.year, d.month, d.day); }
  }

  /** When the day is clamped, the quarter is still 89 days or more. */
  lemma ClampedQuarter(y: int, m: int, day: int)
    requires 1 <= m <= 12 && 1 <= day <= MonthLength(y, m)
    requires day > MonthLength(CarriedYear(y, m + 3), CarriedMonth(m + 3))
    ensures QuarterLength(y, m) - (day - MonthLength(CarriedYear(y, m + 3), CarriedMonth(m + 3))) >= 89
  {
  }

  function YearOn(d: Date): Date {
    if d.month == 2 && d.day == 29 then Date(d.year + 1, 3, 1) else Date(d.year + 1, d.month, d.day)
  }

  /** A year later is the same day, except that 29 February becomes 1 March. */
  lemma YearlyIsTheSameDay(d: Date)
    requires Valid(d)
    ensures Valid(YearOn(d)) && AddDate(d, 1, 0) == YearOn(d)
  {
    assert Leap(d.year) ==> !Leap(d.year + 1);
    CarryNothing(d.year + 1, d.month);
    TimeDateIs(d.year + 1, d.month, d.day, YearOn(d));
  }

  lemma {:induction false} SameMonthNextYear(y: int, m: int)
    requires 1 <= m <= 12
    ensures MonthStart(y + 1, m) - MonthStart(y, m) == if m <= 2 then 0 else YearLength(y + 1) - YearLength(y)
  {
    if m > 1 { SameMonthNextYear(y, m - 1); }
  }

  /** The distance is 366 days exactly when a leap day lies in between. */
  lemma YearlyIsAYear(d: Date)
    requires Valid(d)
    ensures Valid(YearOn(d))
    ensures Days(d, YearOn(d)) == YearLength(if d.month <= 2 then d.year else d.year + 1)
  {
    YearStep(d.year);
    assert Leap(d.year) ==> !Leap(d.year + 1);
    SameMonthNextYear(d.year, d.month);
    if d.month == 2 && d.day == 29 { assert MonthStart(d.year + 1, 3) == 59; }
  }

  /** Every cycle moves the expiry forward by its own span. */
  lemma ExpiryMovesForward(d: Date, cycle: string)
    requires Valid(d) && cycle != FOREVER && cycle != ONE_TIME
    ensures Valid(ExpiryDate(d, cycle))
    ensures var n := Days(d, ExpiryDate(d, cycle));
      if cycle == WEEKLY then n == 7
      else if cycle == QUARTERLY then 89 <= n <= 92
      else if cycle == YEARLY then 365 <= n <= 366
      else 28 <= n <= 31
  {
    if cycle == WEEKLY { WeeklyIsSevenDays(d); }
    else if cycle == YEARLY { YearlyIsTheSameDay(d); YearlyIsAYear(d); }
    else if cycle == QUARTERLY { QuarterlyIsAQuarter(d); }
    else { MonthlyIsFourWeeksOrMore(d); }
  }
}
