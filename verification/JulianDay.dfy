/** The Julian day of a moment, in exact arithmetic, against the Gregorian calendar. */
module JulianDay {

  // ------------------------------------------------- the calendar

  predicate Leap(y: int) { y % 4 == 0 && (y % 100 != 0 || y % 400 == 0) }

  function DaysInYear(y: int): int { if Leap(y) then 366 else 365 }

  function DaysInMonth(y: int, m: int): int
    requires 1 <= m <= 12
  {
    if m == 2 then (if Leap(y) then 29 else 28) else if m in {4, 6, 9, 11} then 30 else 31
  }

  /** Days from 1 January of year 1 to 1 January of year `y`, year by year. */
  function DaysBeforeYear(y: int): int
    decreases if y >= 1 then y - 1 else 1 - y
  {
    if y == 1 then 0
    else if y > 1 then DaysBeforeYear(y - 1) + DaysInYear(y - 1)
    else DaysBeforeYear(y + 1) - DaysInYear(y)
  }

  function DaysBeforeMonth(y: int, m: int): int
    requires 1 <= m <= 13
    decreases m
  {
    if m == 1 then 0 else DaysBeforeMonth(y, m - 1) + DaysInMonth(y, m - 1)
  }

  datatype Date = Date(year: int, month: int, day: int)

  predicate Valid(d: Date) { 1 <= d.month <= 12 && 1 <= d.day <= DaysInMonth(d.year, d.month) }

  /** Days since 1 January of year 1. */
  function DayCount(d: Date): int
    requires 1 <= d.month <= 12
  {
    DaysBeforeYear(d.year) + DaysBeforeMonth(d.year, d.month) + d.day - 1
  }

  function Tomorrow(d: Date): Date
    requires Valid(d)
  {
    if d.day < DaysInMonth(d.year, d.month) then d.(day := d.day + 1)
    else if d.month < 12 then Date(d.year, d.month + 1, 1)
    else Date(d.year + 1, 1, 1)
  }

  datatype Moment = Moment(date: Date, hour: int, minute: int, second: int, nano: int)

  predicate ValidMoment(t: Moment) {
    Valid(t.date) && 0 <= t.hour < 24 && 0 <= t.minute < 60 && 0 <= t.second < 60 && 0 <= t.nano < 1_000_000_000
  }

  const NANOS_PER_DAY := 86_400_000_000_000

  /** Nanoseconds since the beginning of year 1. */
  function Nanos(t: Moment): int
    requires 1 <= t.date.month <= 12
  {
    DayCount(t.date) * NANOS_PER_DAY + NanosOfDay(t)
  }

  function NanosOfDay(t: Moment): int {
    ((t.hour * 60 + t.minute) * 60 + t.second) * 1_000_000_000 + t.nano
  }

  // ------------------------------------------------- the formula

  /** Integer division that truncates towards zero. */
  function Quot(a: int, b: int): int
    requires b > 0
  {
    if a >= 0 then a / b else -(-a / b)
  }

  function Century(year: int): int { 2 - Quot(year, 100) + Quot(Quot(year, 100), 4) }

  /** The whole days of the formula, before 1524.5 is taken off. */
  function WholeDays(year: int, month: int, day: int): int {
    1461 * (year + 4716) / 4 + 306001 * (month + 1) / 10000 + day + Century(year)
  }

  /** January and February count as months 13 and 14 of the year before. */
  function DayNumber(d: Date): int {
    if d.month <= 2 then WholeDays(d.year - 1, d.month + 12, d.day) else WholeDays(d.year, d.month, d.day)
  }

  function FractionalDay(t: Moment): real {
    (t.hour as real + t.minute as real / 60.0 + (t.second as real + t.nano as real / 1_000_000_000.0) / 3600.0) / 24.0
  }

  function Julian(t: Moment): real {
    DayNumber(t.date) as real - 1524.5 + FractionalDay(t)
  }

  // ------------------------------------------------- the two agree

  /** The century years before year 0 in which truncation is not rounding down. */
  predicate Skewed(year: int) { year < 0 && year % 100 == 0 && year % 400 != 0 }

  function FormulaYear(d: Date): int { if d.month <= 2 then d.year - 1 else d.year }

  function LeapDays(n: int): int { n / 4 - n / 100 + n / 400 }

  lemma LeapDaysStep(y: int)
    ensures LeapDays(y) - LeapDays(y - 1) == if Leap(y) then 1 else 0
  {
    QuotStep(y, 4);
    QuotStep(y, 100);
    QuotStep(y, 400);
    Centuries(y);
  }

  lemma Centuries(y: int)
    ensures (y % 400 == 0 ==> y % 100 == 0) && (y % 100 == 0 ==> y % 4 == 0)
  {
    if y % 400 == 0 { Multiple(y, y / 400, 100, 4); }
    if y % 100 == 0 { Multiple(y, y / 100, 4, 25); }
  }

  lemma Multiple(y: int, q: int, k: int, f: int)
    requires (k == 100 && f == 4 && y == 400 * q) || (k == 4 && f == 25 && y == 100 * q)
    ensures y % k == 0
  {
    assert y == k * (f * q);
  }

  lemma QuotStep(y: int, k: int)
    requires k == 4 || k == 100 || k == 400
    ensures y / k - (y - 1) / k == if y % k == 0 then 1 else 0
  {
  }

  /** Year by year, in closed form. */
  lemma {:induction false} YearsInClosedForm(y: int)
    ensures DaysBeforeYear(y) == 365 * (y - 1) + LeapDays(y - 1)
    decreases if y >= 1 then y - 1 else 1 - y
  {
    hide LeapDays, Leap;
    if y > 1 {
      YearsInClosedForm(y - 1);
      LeapDaysStep(y - 1);
    } else if y < 1 {
      YearsInClosedForm(y + 1);
      LeapDaysStep(y);
    } else {
      assert LeapDays(0) == 0 by { NoLeapDays(); }
    }
  }

  lemma NoLeapDays()
    ensures LeapDays(0) == 0
  {
  }

  /** Truncation errs by one day in the skewed years, and nowhere else. */
  lemma CenturyTerm(y: int)
    ensures Century(y) == 2 - y / 100 + y / 400 + if Skewed(y) then 1 else 0
  {
    var q, r := y / 400, y % 400;
    assert y == 400 * q + r;
    if y >= 0 {
      NestedQuotient(y);
    } else {
      var n := -y;
      NestedQuotient(n);
      RoundUp(y, 100);
      RoundUp(y, 400);
      Centuries(y);
    }
  }

  lemma NestedQuotient(n: int)
    requires n >= 0
    ensures n / 100 / 4 == n / 400
  {
  }

  lemma RoundUp(y: int, k: int)
    requires y < 0 && (k == 100 || k == 400)
    ensures y / k == -(-y / k) - if y % k == 0 then 0 else 1
  {
  }

  function MonthTerm(month: int): int { 306001 * (month + 1) / 10000 }

  /** The 30.6001 rule gives the days before each month, counted from March. */
  lemma {:induction false} MonthsInClosedForm(y: int, m: int)
    requires 1 <= m <= 12
    ensures DaysBeforeMonth(y, m) ==
            if m <= 2 then MonthTerm(m + 12) - 428 else MonthTerm(m) - 63 + if Leap(y) then 1 else 0
    decreases m
  {
    hide Leap;
    if m > 1 {
      MonthsInClosedForm(y, m - 1);
      MonthSteps(m);
    }
  }

  lemma MonthSteps(m: int)
    requires 2 <= m <= 12
    ensures m == 2 ==> MonthTerm(14) == 459 && MonthTerm(13) == 428
    ensures m == 3 ==> MonthTerm(3) == 122 && MonthTerm(14) == 459
    ensures m > 3 ==> MonthTerm(m) - MonthTerm(m - 1) == if m - 1 in {4, 6, 9, 11} then 30 else 31
  {
  }

  lemma YearTerm(y: int)
    ensures 1461 * (y + 4716) / 4 == 365 * y + y / 4 + 1722519
  {
    var k := y + 4716;
    assert 1461 * k == 4 * (365 * k) + k;
    assert k / 4 == y / 4 + 1179;
  }

  /** The whole-day part of the formula counts days, off by one exactly in the skewed years. */
  lemma DaysAgree(d: Date)
    requires 1 <= d.month <= 12
    ensures DayNumber(d) == DayCount(d) + 1722950 + if Skewed(FormulaYear(d)) then 1 else 0
  {
    var y := FormulaYear(d);
    WholeDaysAgree(y, if d.month <= 2 then d.month + 12 else d.month, d.day);
    YearsInClosedForm(d.year);
    LeapDaysStep(d.year);
    MonthsInClosedForm(d.year, d.month);
    hide LeapDays, Leap, WholeDays, Skewed, DaysBeforeYear, DaysBeforeMonth, MonthTerm;
  }

  lemma WholeDaysAgree(y: int, month: int, day: int)
    ensures WholeDays(y, month, day) ==
            365 * y + LeapDays(y) + 1722521 + MonthTerm(month) + day + if Skewed(y) then 1 else 0
  {
    YearTerm(y);
    CenturyTerm(y);
    hide Century, Skewed;
  }

  lemma FractionAgrees(t: Moment)
    ensures FractionalDay(t) == NanosOfDay(t) as real / NANOS_PER_DAY as real
  {
  }

  /** The Julian day is an affine function of the time elapsed, and so strictly increasing
      and one greater a day later, for exactly the moments outside the skewed years. */
  lemma JulianMeasuresTime(t: Moment)
    requires ValidMoment(t)
    ensures Julian(t) == 1721425.5 + Nanos(t) as real / NANOS_PER_DAY as real <==> !Skewed(FormulaYear(t.date))
  {
    hide DayCount, DayNumber, FractionalDay, NanosOfDay, Skewed;
    DaysAgree(t.date);
    FractionAgrees(t);
    var n, r := DayCount(t.date), NanosOfDay(t);
    assert (n * NANOS_PER_DAY + r) as real / NANOS_PER_DAY as real == n as real + r as real / NANOS_PER_DAY as real;
  }

  lemma NextDay(d: Date)
    requires Valid(d)
    ensures Valid(Tomorrow(d)) && DayCount(Tomorrow(d)) == DayCount(d) + 1
  {
    hide Leap;
    if d.day == DaysInMonth(d.year, d.month) && d.month == 12 { WholeYear(d.year); }
  }

  lemma WholeYear(y: int)
    ensures DaysBeforeMonth(y, 12) + 31 == DaysInYear(y) && DaysBeforeYear(y + 1) == DaysBeforeYear(y) + DaysInYear(y)
  {
    hide Leap;
    MonthsInClosedForm(y, 12);
    assert MonthTerm(12) == 397;
  }

  /** A day later the Julian day is exactly one greater, unless a skewed year begins or ends;
      so always from year 1 on. */
  lemma OneDayLater(t: Moment)
    requires ValidMoment(t)
    ensures Julian(t.(date := Tomorrow(t.date))) == Julian(t) + 1.0 <==>
            (Skewed(FormulaYear(t.date)) <==> Skewed(FormulaYear(Tomorrow(t.date))))
    ensures t.date.year >= 1 ==> Julian(t.(date := Tomorrow(t.date))) == Julian(t) + 1.0
  {
    hide DayCount, DayNumber, FractionalDay;
    NextDay(t.date);
    DaysAgree(t.date);
    DaysAgree(Tomorrow(t.date));
    assert FractionalDay(t.(date := Tomorrow(t.date))) == FractionalDay(t) by { SameTimeOfDay(t, Tomorrow(t.date)); }
  }

  lemma SameTimeOfDay(t: Moment, d: Date)
    ensures FractionalDay(t.(date := d)) == FractionalDay(t)
  {
  }

  /** Outside the skewed years, and so from year 1 on, the Julian day orders moments as time does. */
  lemma StrictlyIncreasing(t: Moment, u: Moment)
    requires ValidMoment(t) && ValidMoment(u) && !Skewed(FormulaYear(t.date)) && !Skewed(FormulaYear(u.date))
    ensures Julian(t) < Julian(u) <==> Nanos(t) < Nanos(u)
  {
    hide Julian, Nanos;
    JulianMeasuresTime(t);
    JulianMeasuresTime(u);
  }

  /** Before year 0 it does not: the last moment before March of year -100 and the first of that March. */
  lemma SkewedExample()
    ensures var d := Date(-100, 2, 28);
            Valid(d) && Tomorrow(d) == Date(-100, 3, 1) && DayNumber(Tomorrow(d)) == DayNumber(d) + 2
  {
    NextDay(Date(-100, 2, 28));
    DaysAgree(Date(-100, 2, 28));
    DaysAgree(Date(-100, 3, 1));
  }
}
