/** The proleptic Gregorian calendar in UTC, with Go's normalising time.Date. */
module Calendar {
  datatype Date = Date(year: int, month: int, day: int)

  predicate Leap(year: int) { year % 4 == 0 && (year % 100 != 0 || year % 400 == 0) }

  /** The table of section 5.7 of RFC 3339, with the leap rule of its Appendix C. */
  function MonthLength(year: int, month: int): (n: int)
    requires 1 <= month <= 12
    ensures 28 <= n <= 31
  {
    if month == 2 then (if Leap(year) then 29 else 28)
    else if month in {4, 6, 9, 11} then 30
    else 31
  }

  function YearLength(year: int): int { if Leap(year) then 366 else 365 }

  predicate Valid(d: Date) { 1 <= d.month <= 12 && 1 <= d.day <= MonthLength(d.year, d.month) }

  predicate Before(a: Date, b: Date) {
    a.year < b.year || (a.year == b.year && (a.month < b.month || (a.month == b.month && a.day < b.day)))
  }

  predicate NotAfter(a: Date, b: Date) { a == b || Before(a, b) }

  /** Days from 1 January of year 1 to 1 January of `year`. */
  function YearStart(year: int): int
    decreases if year < 1 then 1 - year else year - 1
  {
    if year == 1 then 0
    else if year > 1 then YearStart(year - 1) + YearLength(year - 1)
    else YearStart(year + 1) - YearLength(year)
  }

  /** Days before a month within its year. */
  function MonthStart(year: int, month: int): (n: int)
    requires 1 <= month <= 13
    ensures n >= 0
    decreases month
  {
    if month == 1 then 0 else MonthStart(year, month - 1) + MonthLength(year, month - 1)
  }

  function DayNumber(d: Date): int
    requires 1 <= d.month <= 12
  {
    YearStart(d.year) + MonthStart(d.year, d.month) + d.day - 1
  }

  // ---- From a day number back to a date ----

  lemma YearStep(year: int)
    ensures YearStart(year + 1) == YearStart(year) + YearLength(year)
  {
  }

  lemma CountMultiples(year: int)
    ensures year / 4 == (year - 1) / 4 + (if year % 4 == 0 then 1 else 0)
    ensures year / 100 == (year - 1) / 100 + (if year % 100 == 0 then 1 else 0)
    ensures year / 400 == (year - 1) / 400 + (if year % 400 == 0 then 1 else 0)
  {
  }

  lemma CenturiesAreFourths(year: int)
    ensures year % 400 == 0 ==> year % 100 == 0
    ensures year % 100 == 0 ==> year % 4 == 0
  {
  }

  lemma LeapDays(year: int)
    ensures year / 4 - year / 100 + year / 400
            == (year - 1) / 4 - (year - 1) / 100 + (year - 1) / 400 + (if Leap(year) then 1 else 0)
  {
    CountMultiples(year);
    CenturiesAreFourths(year);
  }

  /** The usual closed form counts the same days. */
  lemma {:induction false} YearStartClosed(year: int)
    ensures YearStart(year) == 365 * (year - 1) + (year - 1) / 4 - (year - 1) / 100 + (year - 1) / 400
    decreases if year < 1 then 1 - year else year - 1
  {
    if year > 1 {
      YearStartClosed(year - 1);
      LeapDays(year - 1);
    } else if year < 1 {
      YearStartClosed(year + 1);
      LeapDays(year);
    }
  }

  /** The year a day number falls in, searched upwards or downwards from `year`. */
  function YearFrom(n: int, year: int): (y: int)
    requires YearStart(year) <= n
    ensures YearStart(y) <= n < YearStart(y + 1)
    decreases n - YearStart(year)
  {
    YearStep(year);
    if n < YearStart(year + 1) then year else YearFrom(n, year + 1)
  }

  function YearUpTo(n: int, year: int): (y: int)
    requires n < YearStart(year + 1)
    ensures YearStart(y) <= n < YearStart(y + 1)
    decreases YearStart(year + 1) - n
  {
    YearStep(year);
    if YearStart(year) <= n then year else YearUpTo(n, year - 1)
  }

  function YearOf(n: int): (y: int)
    ensures YearStart(y) <= n < YearStart(y + 1)
  {
    if n >= 0 then YearFrom(n, 1) else YearUpTo(n, 0)
  }

  lemma TwelveMonthsMakeAYear(year: int)
    ensures MonthStart(year, 13) == YearLength(year)
  {
    assert MonthStart(year, 4) == (if Leap(year) then 91 else 90);
    assert MonthStart(year, 7) == MonthStart(year, 4) + 91;
    assert MonthStart(year, 10) == MonthStart(year, 7) + 92;
    assert MonthStart(year, 13) == MonthStart(year, 10) + 92;
  }

  function MonthFrom(year: int, dayOfYear: int, month: int): (m: int)
    requires 1 <= month <= 12 && MonthStart(year, month) <= dayOfYear < YearLength(year)
    ensures 1 <= m <= 12 && MonthStart(year, m) <= dayOfYear < MonthStart(year, m + 1)
    decreases 12 - month
  {
    TwelveMonthsMakeAYear(year);
    if dayOfYear < MonthStart(year, month + 1) then month else MonthFrom(year, dayOfYear, month + 1)
  }

  function DateOf(n: int): (d: Date)
    ensures Valid(d) && DayNumber(d) == n
  {
    var y := YearOf(n);
    YearStep(y);
    var m := MonthFrom(y, n - YearStart(y), 1);
    Date(y, m, n - YearStart(y) - MonthStart(y, m) + 1)
  }

  /** Carrying a month number into its year. */
  function CarriedYear(year: int, month: int): int { year + (month - 1) / 12 }

  function CarriedMonth(month: int): (m: int)
    ensures 1 <= m <= 12
  {
    (month - 1) % 12 + 1
  }

  /** time.Date: any month and day are accepted and carried over. */
  function TimeDate(year: int, month: int, day: int): Date {
    DateOf(DayNumber(Date(CarriedYear(year, month), CarriedMonth(month), day)))
  }

  // ---- Round trips ----

  lemma {:induction false} YearsGrow(a: int, b: int)
    requires a <= b
    ensures YearStart(b) >= YearStart(a) + 365 * (b - a)
    decreases b - a
  {
    if a < b {
      YearStep(b - 1);
      YearsGrow(a, b - 1);
    }
  }

  lemma {:induction false} MonthsGrow(year: int, a: int, b: int)
    requires 1 <= a <= b <= 13
    ensures MonthStart(year, a) <= MonthStart(year, b)
    decreases b - a
  {
    if a < b { MonthsGrow(year, a, b - 1); }
  }

  lemma MonthsFit(year: int, month: int)
    requires 1 <= month <= 12
    ensures MonthStart(year, month + 1) == MonthStart(year, month) + MonthLength(year, month)
    ensures MonthStart(year, month + 1) <= YearLength(year)
  {
    MonthsGrow(year, month + 1, 13);
    TwelveMonthsMakeAYear(year);
  }

  /** Later dates have greater numbers, so the number determines the date. */
  lemma DayNumberIsMonotone(a: Date, b: Date)
    requires Valid(a) && Valid(b) && Before(a, b)
    ensures DayNumber(a) < DayNumber(b)
  {
    MonthsFit(a.year, a.month);
    MonthsFit(b.year, b.month);
    if a.year < b.year {
      YearStep(a.year);
      YearsGrow(a.year + 1, b.year);
    } else if a.month < b.month {
      MonthsGrow(a.year, a.month + 1, b.month);
    }
  }

  lemma DateOfDayNumber(d: Date)
    requires Valid(d)
    ensures DateOf(DayNumber(d)) == d
  {
    var e := DateOf(DayNumber(d));
    if e != d {
      if Before(d, e) { DayNumberIsMonotone(d, e); } else { DayNumberIsMonotone(e, d); }
    }
  }

  lemma SomeDateHas(n: int) returns (d: Date)
    ensures Valid(d) && DayNumber(d) == n
  {
    d := DateOf(n);
  }

  lemma CarryNothing(year: int, month: int)
    requires 1 <= month <= 12
    ensures CarriedYear(year, month) == year && CarriedMonth(month) == month
  {
  }

  /** time.Date is the one valid date with the number that its arguments, carried, denote. */
  lemma TimeDateIs(year: int, month: int, day: int, d: Date)
    requires Valid(d) && DayNumber(d) == DayNumber(Date(CarriedYear(year, month), CarriedMonth(month), day))
    ensures TimeDate(year, month, day) == d
  {
    DateOfDayNumber(d);
  }

  lemma TimeDateInMonth(year: int, month: int, day: int, d: Date)
    requires 1 <= month <= 12 && Valid(d) && DayNumber(d) == DayNumber(Date(year, month, day))
    ensures TimeDate(year, month, day) == d
  {
    CarryNothing(year, month);
    assert Date(CarriedYear(year, month), CarriedMonth(month), day) == Date(year, month, day);
    TimeDateIs(year, month, day, d);
  }

  /** AddDate(years, 0, days). */
  function AddDate(d: Date, years: int, days: int): Date { TimeDate(d.year + years, d.month, d.day + days) }

  lemma AddDaysIs(d: Date, days: int, e: Date)
    requires Valid(d) && Valid(e) && DayNumber(e) == DayNumber(d) + days
    ensures AddDate(d, 0, days) == e
  {
    assert AddDate(d, 0, days) == TimeDate(d.year, d.month, d.day + days);
    assert DayNumber(e) == DayNumber(Date(d.year, d.month, d.day + days));
    TimeDateInMonth(d.year, d.month, d.day + days, e);
  }

  /** Adding days moves the day number by as many. */
  lemma AddDaysMoves(d: Date, days: int)
    requires Valid(d)
    ensures Valid(AddDate(d, 0, days)) && DayNumber(AddDate(d, 0, days)) == DayNumber(d) + days
  {
    var e := SomeDateHas(DayNumber(d) + days);
    AddDaysIs(d, days, e);
  }
}
