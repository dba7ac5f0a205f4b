/** Dates written yyyy-MM-dd, as the check-in table stores and compares them. */
module IsoDates {
  import opened Prelude
  import opened Calendar

  predicate IsDigit(c: char) { '0' <= c <= '9' }

  function Digit(n: nat): (c: char)
    requires n < 10
    ensures IsDigit(c) && c as int == '0' as int + n
  {
    ('0' as int + n) as char
  }

  /** The last `width` decimal digits of n, padded with zeros. */
  function Pad(n: nat, width: nat): (s: string)
    ensures |s| == width && Digits(s)
    decreases width
  {
    if width == 0 then "" else Pad(n / 10, width - 1) + [Digit(n % 10)]
  }

  predicate Digits(s: string) { forall i :: 0 <= i < |s| ==> IsDigit(s[i]) }

  function Num(s: string): nat
    requires Digits(s)
  {
    if s == "" then 0 else assert IsDigit(s[|s| - 1]); 10 * Num(s[..|s| - 1]) + (s[|s| - 1] as int - '0' as int)
  }

  function Pow10(k: nat): nat { if k == 0 then 1 else 10 * Pow10(k - 1) }

  lemma {:induction false} NumOfPad(n: nat, width: nat)
    requires n < Pow10(width)
    ensures Num(Pad(n, width)) == n
    decreases width
  {
    if width > 0 {
      NumOfPad(n / 10, width - 1);
      assert Pad(n, width)[..width - 1] == Pad(n / 10, width - 1);
    }
  }

  lemma {:induction false} NumFits(s: string)
    requires Digits(s)
    ensures Num(s) < Pow10(|s|)
  {
    if s != "" { NumFits(s[..|s| - 1]); }
  }

  // ---- Text order ----

  predicate Less(a: string, b: string) {
    if b == "" then false
    else if a == "" then true
    else a[0] < b[0] || (a[0] == b[0] && Less(a[1..], b[1..]))
  }

  lemma {:induction false} LessIsTransitive(a: string, b: string, c: string)
    requires Less(a, b) && Less(b, c)
    ensures Less(a, c)
  {
    if a != "" && a[0] == b[0] == c[0] { LessIsTransitive(a[1..], b[1..], c[1..]); }
  }

  lemma {:induction false} LessIsTotal(a: string, b: string)
    ensures Less(a, b) || a == b || Less(b, a)
    ensures !(Less(a, b) && Less(b, a)) && !Less(a, a)
  {
    if a != "" && b != "" {
      LessIsTotal(a[1..], b[1..]);
      LessIsTotal(a[1..], a[1..]);
      if a[0] == b[0] && a[1..] == b[1..] { assert a == [a[0]] + a[1..] == b; }
    } else if a != "" {
      LessIsTotal(a[1..], a[1..]);
    }
  }

  lemma {:induction false} LessOfConcat(a: string, b: string, c: string, d: string)
    requires |a| == |b|
    ensures Less(a + c, b + d) <==> Less(a, b) || (a == b && Less(c, d))
  {
    if a == "" {
      assert a + c == c && b + d == d;
    } else {
      assert (a + c)[1..] == a[1..] + c && (b + d)[1..] == b[1..] + d;
      LessOfConcat(a[1..], b[1..], c, d);
      assert a == [a[0]] + a[1..] && b == [b[0]] + b[1..];
    }
  }

  lemma {:induction false} PadKeepsOrder(m: nat, n: nat, width: nat)
    requires m < Pow10(width) && n < Pow10(width)
    ensures Less(Pad(m, width), Pad(n, width)) <==> m < n
    ensures Pad(m, width) == Pad(n, width) <==> m == n
    decreases width
  {
    if width > 0 {
      PadKeepsOrder(m / 10, n / 10, width - 1);
      LessOfConcat(Pad(m / 10, width - 1), Pad(n / 10, width - 1), [Digit(m % 10)], [Digit(n % 10)]);
      NumOfPad(m, width);
      NumOfPad(n, width);
    }
  }

  // ---- Dates as text ----

  predicate Writable(d: Date) { Valid(d) && 0 <= d.year <= 9999 }

  /** A year before 0 gets a sign in front of its four digits. */
  function Format(d: Date): string
    requires Valid(d) && -1 <= d.year <= 9999
  {
    (if d.year < 0 then "-" + Pad(-d.year, 4) else Pad(d.year, 4)) + "-" + Pad(d.month, 2) + "-" + Pad(d.day, 2)
  }

  /** Exactly four, two and two digits, and a day that exists in its month. */
  function Parse(s: string): Option<Date> {
    if |s| != 10 || s[4] != '-' || s[7] != '-' || !Digits(s[..4]) || !Digits(s[5..7]) || !Digits(s[8..]) then None
    else
      var d := Date(Num(s[..4]), Num(s[5..7]), Num(s[8..]));
      if Valid(d) then Some(d) else None
  }

  lemma ParsedIsWritable(s: string)
    requires Parse(s).Some?
    ensures Writable(Parse(s).value)
  {
    NumFits(s[..4]);
    assert Pow10(4) == 10000;
  }

  lemma ParseFormat(d: Date)
    requires Writable(d)
    ensures Parse(Format(d)) == Some(d)
  {
    var y, m, dd := Pad(d.year, 4), Pad(d.month, 2), Pad(d.day, 2);
    var s := Format(d);
    assert s == y + "-" + m + "-" + dd;
    assert s[..4] == y && s[5..7] == m && s[8..] == dd;
    NumOfPad(d.year, 4);
    NumOfPad(d.month, 2);
    NumOfPad(d.day, 2);
  }

  lemma MonthAndDayKeepOrder(a: Date, b: Date)
    requires Writable(a) && Writable(b)
    ensures Less(MonthAndDay(a), MonthAndDay(b)) <==> a.month < b.month || (a.month == b.month && a.day < b.day)
  {
    PadKeepsOrder(a.month, b.month, 2);
    PadKeepsOrder(a.day, b.day, 2);
    DashKeepsOrder(Pad(a.month, 2), Pad(b.month, 2), Pad(a.day, 2), Pad(b.day, 2));
  }

  function MonthAndDay(d: Date): string
    requires Writable(d)
  {
    Pad(d.month, 2) + ("-" + Pad(d.day, 2))
  }

  lemma FormatIs(d: Date)
    requires Writable(d)
    ensures Format(d) == Pad(d.year, 4) + ("-" + MonthAndDay(d))
  {
  }

  /** Comparing the text compares the dates. */
  lemma FormatKeepsOrder(a: Date, b: Date)
    requires Writable(a) && Writable(b)
    ensures Less(Format(a), Format(b)) <==> Before(a, b)
  {
    FormatIs(a);
    FormatIs(b);
    PadKeepsOrder(a.year, b.year, 4);
    MonthAndDayKeepOrder(a, b);
    DashKeepsOrder(Pad(a.year, 4), Pad(b.year, 4), MonthAndDay(a), MonthAndDay(b));
  }

  lemma DashKeepsOrder(a: string, b: string, c: string, d: string)
    requires |a| == |b|
    ensures Less(a + ("-" + c), b + ("-" + d)) <==> Less(a, b) || (a == b && Less(c, d))
  {
    LessOfConcat(a, b, "-" + c, "-" + d);
    LessOfConcat("-", "-", c, d);
  }

  function DayBefore(d: Date): Date
    requires Valid(d)
  {
    if d.day > 1 then Date(d.year, d.month, d.day - 1)
    else if d.month > 1 then Date(d.year, d.month - 1, MonthLength(d.year, d.month - 1))
    else Date(d.year - 1, 12, 31)
  }

  lemma DayBeforeIs(d: Date)
    requires Valid(d)
    ensures Valid(DayBefore(d)) && DayNumber(DayBefore(d)) == DayNumber(d) - 1
  {
    if d.day == 1 {
      if d.month > 1 { MonthsFit(d.year, d.month - 1); } else { YearStep(d.year - 1); }
    }
  }

  lemma AddDateIsDayBefore(d: Date)
    requires Valid(d)
    ensures Valid(AddDate(d, 0, -1)) && AddDate(d, 0, -1) == DayBefore(d)
    ensures d.year - 1 <= AddDate(d, 0, -1).year <= d.year
  {
    DayBeforeIs(d);
    CarryNothing(d.year, d.month);
    TimeDateIs(d.year, d.month, d.day - 1, DayBefore(d));
  }

  function FormatDayBefore(d: Date): string
    requires Writable(d)
  {
    AddDateIsDayBefore(d);
    Format(AddDate(d, 0, -1))
  }

  /** subtractDay: "" when the text is not a date. */
  function SubtractDay(s: string): string {
    match Parse(s)
    case None => ""
    case Some(d) => ParsedIsWritable(s); FormatDayBefore(d)
  }

  /** Text that DoCheckin can have stored. */
  ghost predicate IsDate(s: string) { exists d: Date :: Writable(d) && d.year >= 1 && s == Format(d) }

  function DayOf(s: string): int
    requires Parse(s).Some?
  {
    DayNumber(Parse(s).value)
  }

  /** Text order is day order, and subtractDay steps back by exactly one day. */
  lemma TextIsTime(s: string, t: string)
    requires IsDate(s) && IsDate(t)
    ensures Parse(s).Some? && Parse(t).Some?
    ensures Less(s, t) <==> DayOf(s) < DayOf(t)
    ensures s == t <==> DayOf(s) == DayOf(t)
    ensures s == SubtractDay(t) <==> DayOf(s) == DayOf(t) - 1
  {
    var a: Date :| Writable(a) && a.year >= 1 && s == Format(a);
    var b: Date :| Writable(b) && b.year >= 1 && t == Format(b);
    ParseFormat(a);
    ParseFormat(b);
    FormatKeepsOrder(a, b);
    if Before(a, b) { DayNumberIsMonotone(a, b); } else if Before(b, a) { DayNumberIsMonotone(b, a); }
    SubtractDayIs(b);
    ParseFormat(DayBefore(b));
    SameNumberSameDate(a, DayBefore(b));
  }

  lemma SubtractDayIs(d: Date)
    requires Writable(d) && d.year >= 1
    ensures Writable(DayBefore(d)) && DayNumber(DayBefore(d)) == DayNumber(d) - 1
    ensures SubtractDay(Format(d)) == Format(DayBefore(d))
  {
    ParseFormat(d);
    DayBeforeIs(d);
    AddDateIsDayBefore(d);
  }

  lemma SameNumberSameDate(a: Date, b: Date)
    requires Valid(a) && Valid(b)
    ensures DayNumber(a) == DayNumber(b) <==> a == b
  {
    if Before(a, b) { DayNumberIsMonotone(a, b); } else if Before(b, a) { DayNumberIsMonotone(b, a); }
  }
}
