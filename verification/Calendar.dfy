/** Budget windows over the proleptic Gregorian calendar. */
module Calendar {
  datatype Period = Daily | Weekly | Monthly

  datatype Date = Date(year: int, month: int, day: int)

  // ---------------------------------------------------------------- the calendar

  predicate Divides(k: int, n: int)
    requires k > 0
    decreases if n >= 0 then n else -n
  {
    n == 0 || (n >= k && Divides(k, n - k)) || (n <= -k && Divides(k, n + k))
  }

  predicate IsLeap(y: int) {
    Divides(4, y) && (!Divides(100, y) || Divides(400, y))
  }

  function YearLength(y: int): int {
    if IsLeap(y) then 366 else 365
  }

  function MonthLength(y: int, m: int): int {
    if m == 2 then if IsLeap(y) then 29 else 28
    else if m == 4 || m == 6 || m == 9 || m == 11 then 30
    else 31
  }

  predicate ValidDate(d: Date) {
    1 <= d.month <= 12 && 1 <= d.day <= MonthLength(d.year, d.month)
  }

  /** Days from the first day of year 1 to the first day of year `y`. */
  function DaysBeforeYear(y: int): int
    decreases if y > 1 then y - 1 else 1 - y
  {
    if y == 1 then 0
    else if y > 1 then DaysBeforeYear(y - 1) + YearLength(y - 1)
    else DaysBeforeYear(y + 1) - YearLength(y)
  }

  function DaysBeforeMonth(y: int, m: int): int
    requires 1 <= m <= 13
    decreases m, y
  {
    if m == 1 then 0 else DaysBeforeMonth(y, m - 1) + MonthLength(y, m - 1)
  }

  function DayNumber(d: Date): int
    requires ValidDate(d)
  {
    DaysBeforeYear(d.year) + DaysBeforeMonth(d.year, d.month) + d.day - 1
  }

  lemma YearsAddUp(y: int)
    ensures DaysBeforeYear(y + 1) == DaysBeforeYear(y) + YearLength(y)
  {}

  /** The number of days before a year counts its leap years, as division rounded down does it. */
  lemma {:induction false} ClosedForm(y: int)
    ensures DaysBeforeYear(y) == 365 * (y - 1) + (y - 1) / 4 - (y - 1) / 100 + (y - 1) / 400
    decreases if y > 1 then y - 1 else 1 - y
  {
    if y > 1 {
      ClosedForm(y - 1);
      var x := y - 1;
      LeapYears(x, (x - 1) / 4, x / 4, (x - 1) / 100, x / 100, (x - 1) / 400, x / 400);
    } else if y < 1 {
      ClosedForm(y + 1);
      LeapYears(y, (y - 1) / 4, y / 4, (y - 1) / 100, y / 100, (y - 1) / 400, y / 400);
    }
  }

  predicate LeapByRemainder(y: int) {
    y % 4 == 0 && (y % 100 != 0 || y % 400 == 0)
  }

  /** The usual formula for the days from the first day of year 1, without a table of months. */
  function FixedDay(y: int, m: int, d: int): int {
    365 * (y - 1) + (y - 1) / 4 - (y - 1) / 100 + (y - 1) / 400
    + (367 * m - 362) / 12 + (if m <= 2 then 0 else if LeapByRemainder(y) then -1 else -2) + d - 1
  }

  lemma LeapIffByRemainder(y: int)
    ensures IsLeap(y) <==> LeapByRemainder(y)
  {
    DividesIsNoRemainder(4, y);
    DividesIsNoRemainder(100, y);
    DividesIsNoRemainder(400, y);
  }

  lemma DaysBeforeMonthClosedForm(y: int, m: int)
    requires 1 <= m <= 12
    ensures DaysBeforeMonth(y, m) == (367 * m - 362) / 12 + if m <= 2 then 0 else if IsLeap(y) then -1 else -2
  {
    var feb := MonthLength(y, 2);
    assert DaysBeforeMonth(y, 2) == 31;
    assert DaysBeforeMonth(y, 3) == 31 + feb;
    FourMonths(y, 3, 31, 30, 31);
    FourMonths(y, 6, 30, 31, 31);
    FourMonths(y, 9, 30, 31, 30);
    assert m == 1 || m == 2 || m == 3 || m == 4 || m == 5 || m == 6 || m == 7 || m == 8 || m == 9 || m == 10 || m == 11
        || m == 12;
  }

  lemma FourMonths(y: int, m: int, a: int, b: int, c: int)
    requires 1 <= m <= 10 && MonthLength(y, m) == a && MonthLength(y, m + 1) == b && MonthLength(y, m + 2) == c
    ensures DaysBeforeMonth(y, m + 1) == DaysBeforeMonth(y, m) + a
    ensures DaysBeforeMonth(y, m + 2) == DaysBeforeMonth(y, m) + a + b
    ensures DaysBeforeMonth(y, m + 3) == DaysBeforeMonth(y, m) + a + b + c
  {}

  /** The calendar's day numbers are those of the formula, for every date. */
  lemma DayNumberClosedForm(d: Date)
    requires ValidDate(d)
    ensures DayNumber(d) == FixedDay(d.year, d.month, d.day)
  {
    ClosedForm(d.year);
    LeapIffByRemainder(d.year);
    DaysBeforeMonthClosedForm(d.year, d.month);
  }

  /** A month has the days from its first to the next month's; year 1 begins on a Monday, which 12 May 2025 is too. */
  lemma MonthLengthClosedForm(y: int, m: int)
    requires 1 <= m <= 12
    ensures m < 12 ==> MonthLength(y, m) == FixedDay(y, m + 1, 1) - FixedDay(y, m, 1)
    ensures m == 12 ==> MonthLength(y, m) == FixedDay(y + 1, 1, 1) - FixedDay(y, 12, 1)
    ensures FixedDay(1, 1, 1) % 7 == 0 && FixedDay(2025, 5, 12) % 7 == 0
  {
    DayNumberClosedForm(Date(y, m, 1));
    DayNumberClosedForm(FirstOfNextMonth(Date(y, m, 1)));
    NextMonth(Date(y, m, 1));
  }

  lemma LeapYears(x: int, a: int, a': int, b: int, b': int, c: int, c': int)
    requires a == (x - 1) / 4 && a' == x / 4 && b == (x - 1) / 100 && b' == x / 100 && c == (x - 1) / 400
      && c' == x / 400
    ensures YearLength(x) == 365 + (a' - a) - (b' - b) + (c' - c)
  {
    DivisionSteps(x - 1, 4);
    DivisionSteps(x - 1, 100);
    DivisionSteps(x - 1, 400);
    DividesIsNoRemainder(4, x);
    DividesIsNoRemainder(100, x);
    DividesIsNoRemainder(400, x);
    if x % 100 == 0 {
      QuotientIs(x, 4, 25 * (x / 100), 0);
    }
    if x % 400 == 0 {
      QuotientIs(x, 100, 4 * (x / 400), 0);
    }
  }

  lemma {:induction false} DividesIsNoRemainder(k: int, n: int)
    requires k > 0
    ensures Divides(k, n) <==> n % k == 0
    decreases if n >= 0 then n else -n
  {
    if n >= k {
      DividesIsNoRemainder(k, n - k);
      OneMore(n - k, k);
    } else if n <= -k {
      DividesIsNoRemainder(k, n + k);
      OneMore(n, k);
    } else {
      QuotientIs(n, k, if n >= 0 then 0 else -1, if n >= 0 then n else n + k);
    }
  }

  lemma OneMore(x: int, k: int)
    requires k > 0
    ensures (x + k) % k == x % k
  {
    var q, r := x / k, x % k;
    assert (q + 1) * k == q * k + k;
    QuotientIs(x + k, k, q + 1, r);
  }

  /** Division counts multiples: it moves up by one exactly at a multiple of the divisor. */
  lemma DivisionSteps(x: int, k: int)
    requires k > 1
    ensures (x + 1) / k == x / k + if (x + 1) % k == 0 then 1 else 0
  {
    var q, r := x / k, x % k;
    if r + 1 == k {
      QuotientIs(x + 1, k, q + 1, 0);
    } else {
      QuotientIs(x + 1, k, q, r + 1);
    }
  }

  lemma Multiples(d: int, k: int)
    requires k > 0
    ensures d >= 1 ==> d * k >= k
    ensures d <= -1 ==> d * k <= -k
  {}

  lemma QuotientIs(x: int, k: int, q: int, r: int)
    requires k > 0 && 0 <= r < k && x == q * k + r
    ensures x / k == q && x % k == r
  {
    assert (x / k - q) * k == r - x % k;
    Multiples(x / k - q, k);
  }

  lemma MonthsAddUp(y: int)
    ensures DaysBeforeMonth(y, 13) == YearLength(y)
  {
    assert DaysBeforeMonth(y, 2) == 31;
    var a := DaysBeforeMonth(y, 4);
    assert DaysBeforeMonth(y, 3) == 31 + MonthLength(y, 2) && a == DaysBeforeMonth(y, 3) + 31;
    var b := DaysBeforeMonth(y, 7);
    assert DaysBeforeMonth(y, 6) == a + 61 && b == a + 91;
    var c := DaysBeforeMonth(y, 10);
    assert DaysBeforeMonth(y, 9) == b + 62 && c == b + 92;
    assert DaysBeforeMonth(y, 12) == c + 61;
  }

  lemma {:induction false} YearsAreOrdered(a: int, b: int)
    requires a <= b
    ensures DaysBeforeYear(a) + 365 * (b - a) <= DaysBeforeYear(b)
    decreases b - a
  {
    if a < b {
      YearsAddUp(a);
      YearsAreOrdered(a + 1, b);
    }
  }

  lemma {:induction false} MonthsAreOrdered(y: int, a: int, b: int)
    requires 1 <= a < b <= 13
    ensures DaysBeforeMonth(y, a) + MonthLength(y, a) <= DaysBeforeMonth(y, b)
    decreases b - a
  {
    if a + 1 < b {
      MonthsAreOrdered(y, a + 1, b);
    }
  }

  // ---------------------------------------------------------------- reading a date off a day number

  function FirstOfNextMonth(d: Date): Date {
    if d.month == 12 then Date(d.year + 1, 1, 1) else Date(d.year, d.month + 1, 1)
  }

  lemma NextMonth(d: Date)
    requires ValidDate(d)
    ensures DayNumber(d.(day := 1)) == DayNumber(d) - (d.day - 1)
    ensures DayNumber(FirstOfNextMonth(d)) == DayNumber(d.(day := 1)) + MonthLength(d.year, d.month)
  {
    if d.month == 12 {
      YearsAddUp(d.year);
      MonthsAddUp(d.year);
    }
  }

  function NextDate(d: Date): (e: Date)
    requires ValidDate(d)
    ensures ValidDate(e)
  {
    if d.day < MonthLength(d.year, d.month) then d.(day := d.day + 1) else FirstOfNextMonth(d)
  }

  lemma NextDateFollows(d: Date)
    requires ValidDate(d)
    ensures DayNumber(NextDate(d)) == DayNumber(d) + 1
  {
    if d.day == MonthLength(d.year, d.month) {
      NextMonth(d);
    }
  }

  lemma NewYear(y: int)
    ensures DayNumber(Date(y, 1, 1)) == DayNumber(Date(y - 1, 12, 31)) + 1
  {
    NextMonth(Date(y - 1, 12, 1));
  }

  function PreviousDate(d: Date): (e: Date)
    requires ValidDate(d)
    ensures ValidDate(e)
  {
    if d.day > 1 then d.(day := d.day - 1)
    else if d.month > 1 then Date(d.year, d.month - 1, MonthLength(d.year, d.month - 1))
    else Date(d.year - 1, 12, 31)
  }

  lemma PreviousDatePrecedes(d: Date)
    requires ValidDate(d)
    ensures DayNumber(PreviousDate(d)) == DayNumber(d) - 1
  {
    if d.day == 1 && d.month == 1 {
      NewYear(d.year);
    }
  }

  /** The date of a day: the calendar, read forwards or backwards from the first day of year 1. */
  function Civil(n: int): (d: Date)
    ensures ValidDate(d) && DayNumber(d) == n
    decreases if n > 0 then n else -n
  {
    if n == 0 then Date(1, 1, 1)
    else if n > 0 then
      var yesterday := Civil(n - 1);
      NextDateFollows(yesterday);
      NextDate(yesterday)
    else
      var tomorrow := Civil(n + 1);
      PreviousDatePrecedes(tomorrow);
      PreviousDate(tomorrow)
  }

  /** Day numbers run through the year in date order, inside the year's span. */
  lemma InYear(d: Date)
    requires ValidDate(d)
    ensures DaysBeforeYear(d.year) <= DayNumber(d) < DaysBeforeYear(d.year + 1)
  {
    YearsAddUp(d.year);
    MonthsAddUp(d.year);
    MonthsAreOrdered(d.year, d.month, 13);
    if d.month > 1 {
      MonthsAreOrdered(d.year, 1, d.month);
    }
  }

  predicate Before(a: Date, b: Date) {
    a.year < b.year || (a.year == b.year && (a.month < b.month || (a.month == b.month && a.day < b.day)))
  }

  /** Day numbers order dates as the calendar does. */
  lemma DayNumberIsMonotone(a: Date, b: Date)
    requires ValidDate(a) && ValidDate(b)
    ensures Before(a, b) <==> DayNumber(a) < DayNumber(b)
  {
    if a == b {
    } else if Before(a, b) {
      LaterDate(a, b);
    } else {
      LaterDate(b, a);
    }
  }

  lemma LaterDate(a: Date, b: Date)
    requires ValidDate(a) && ValidDate(b) && Before(a, b)
    ensures DayNumber(a) < DayNumber(b)
  {
    if a.year < b.year {
      InYear(a);
      InYear(b);
      YearsAreOrdered(a.year + 1, b.year);
    } else if a.month < b.month {
      MonthsAreOrdered(a.year, a.month, b.month);
    }
  }

  /** Dates and day numbers are two names for the same days. */
  lemma CivilInvertsDayNumber(d: Date)
    requires ValidDate(d)
    ensures Civil(DayNumber(d)) == d
  {
    DayNumberIsMonotone(d, Civil(DayNumber(d)));
    DayNumberIsMonotone(Civil(DayNumber(d)), d);
  }

  // ---------------------------------------------------------------- windows

  function PlusDays(d: Date, k: int): (e: Date)
    requires ValidDate(d)
    ensures ValidDate(e) && DayNumber(e) == DayNumber(d) + k
  {
    Civil(DayNumber(d) + k)
  }

  /** Days since Monday; the first day of year 1 was a Monday. */
  function Weekday(d: Date): int
    requires ValidDate(d)
  {
    DayNumber(d) % 7
  }

  /** The date a window begins on. */
  function FirstDate(p: Period, d: Date): (e: Date)
    requires ValidDate(d)
    ensures ValidDate(e)
  {
    match p
    case Daily => d
    case Weekly => PlusDays(d, -Weekday(d))
    case Monthly => d.(day := 1)
  }

  /** The date the next window begins on. */
  function NextFirstDate(p: Period, d: Date): (e: Date)
    requires ValidDate(d)
    ensures ValidDate(e)
  {
    match p
    case Daily => PlusDays(d, 1)
    case Weekly => PlusDays(d, 7 - Weekday(d))
    case Monthly => FirstOfNextMonth(d)
  }

  type DayOf = d: Date | ValidDate(d) witness Date(1, 1, 1)

  /** A day and the nanoseconds since its midnight. */
  datatype Instant = Instant(date: DayOf, nanos: nat)

  predicate AtOrBefore(a: Instant, b: Instant) {
    Before(a.date, b.date) || (a.date == b.date && a.nanos <= b.nanos)
  }

  function PeriodStart(p: Period, now: Instant): Instant {
    Instant(FirstDate(p, now.date), 0)
  }

  function PeriodNextStart(p: Period, now: Instant): Instant {
    Instant(NextFirstDate(p, now.date), 0)
  }

  function Length(p: Period, d: Date): (k: int) {
    match p
    case Daily => 1
    case Weekly => 7
    case Monthly => MonthLength(d.year, d.month)
  }

  /** A window lasts one day, one week from a Monday, or its month's length from the first of the month. */
  lemma WindowsFollowTheCalendar(p: Period, d: Date)
    requires ValidDate(d)
    ensures DayNumber(NextFirstDate(p, d)) == DayNumber(FirstDate(p, d)) + Length(p, d)
    ensures DayNumber(FirstDate(p, d)) <= DayNumber(d) < DayNumber(NextFirstDate(p, d))
    ensures p.Weekly? ==> Weekday(FirstDate(p, d)) == 0
    ensures p.Monthly? ==> FirstDate(p, d) == Date(d.year, d.month, 1)
  {
    match p
    case Daily =>
    case Weekly =>
      WeekShape(d, DayNumber(d));
    case Monthly =>
      NextMonth(d);
  }

  /** The same of an instant, over the formula's day numbers: windows start at midnight, weeks on Mondays. */
  lemma WindowsByTheFormula(p: Period, now: Instant)
    ensures PeriodStart(p, now).nanos == 0 && PeriodNextStart(p, now).nanos == 0
    ensures
      var s, e, d := PeriodStart(p, now).date, PeriodNextStart(p, now).date, now.date;
      var n := FixedDay(d.year, d.month, d.day);
      var first, next := FixedDay(s.year, s.month, s.day), FixedDay(e.year, e.month, e.day);
      && (p.Daily? ==> first == n && next == n + 1)
      && (p.Weekly? ==> first == n - n % 7 && next == n - n % 7 + 7)
      && (p.Monthly? ==>
            && s == Date(d.year, d.month, 1)
            && e == if d.month == 12 then Date(d.year + 1, 1, 1) else Date(d.year, d.month + 1, 1))
  {
    DayNumberClosedForm(now.date);
    DayNumberClosedForm(PeriodStart(p, now).date);
    DayNumberClosedForm(PeriodNextStart(p, now).date);
    if p.Weekly? {
      WeekShape(now.date, DayNumber(now.date));
    }
  }

  lemma ShiftToMonday(d: Date, k: int, m: int)
    requires ValidDate(d) && m == DayNumber(d) + k && m % 7 == 0
    ensures DayNumber(PlusDays(d, k)) == m && Weekday(PlusDays(d, k)) == 0
  {}

  lemma WeekShape(d: Date, n: int)
    requires ValidDate(d) && n == DayNumber(d)
    ensures DayNumber(FirstDate(Weekly, d)) == n - n % 7 && DayNumber(NextFirstDate(Weekly, d)) == n - n % 7 + 7
    ensures Weekday(FirstDate(Weekly, d)) == 0 && Weekday(NextFirstDate(Weekly, d)) == 0
  {
    MondayOf(n);
    WeekStarts(d, n);
    WeekEnds(d, n);
  }

  lemma WeekStarts(d: Date, n: int)
    requires ValidDate(d) && n == DayNumber(d) && (n - n % 7) % 7 == 0
    ensures DayNumber(FirstDate(Weekly, d)) == n - n % 7 && Weekday(FirstDate(Weekly, d)) == 0
  {
    ShiftToMonday(d, -Weekday(d), n - n % 7);
  }

  lemma WeekEnds(d: Date, n: int)
    requires ValidDate(d) && n == DayNumber(d) && (n - n % 7 + 7) % 7 == 0
    ensures DayNumber(NextFirstDate(Weekly, d)) == n - n % 7 + 7 && Weekday(NextFirstDate(Weekly, d)) == 0
  {
    ShiftToMonday(d, 7 - Weekday(d), n - n % 7 + 7);
  }

  lemma MondayOf(n: int)
    ensures (n - n % 7) % 7 == 0 && (n - n % 7 + 7) % 7 == 0
  {
    QuotientIs(n - n % 7, 7, n / 7, 0);
    QuotientIs(n - n % 7 + 7, 7, n / 7 + 1, 0);
  }

  lemma SameMonday(n: int, k: int)
    requires n - n % 7 <= k < n - n % 7 + 7
    ensures k - k % 7 == n - n % 7
  {
    QuotientIs(k, 7, n / 7, k - (n - n % 7));
  }

  predicate DateWithin(p: Period, d: Date, e: Date)
    requires ValidDate(d) && ValidDate(e)
  {
    !Before(e, FirstDate(p, d)) && Before(e, NextFirstDate(p, d))
  }

  /** Every date of a window lies in that same window. */
  lemma SameWindow(p: Period, d: Date, e: Date)
    requires ValidDate(d) && ValidDate(e) && DateWithin(p, d, e)
    ensures FirstDate(p, e) == FirstDate(p, d) && NextFirstDate(p, e) == NextFirstDate(p, d)
  {
    match p
    case Daily =>
      SameDay(d, e);
    case Weekly =>
      DayNumberIsMonotone(e, FirstDate(p, d));
      DayNumberIsMonotone(e, NextFirstDate(p, d));
      SameWeek(d, e, DayNumber(d), DayNumber(e));
    case Monthly =>
  }

  lemma SameDay(d: Date, e: Date)
    requires ValidDate(d) && ValidDate(e) && DateWithin(Daily, d, e)
    ensures e == d
  {
    DayNumberIsMonotone(e, PlusDays(d, 1));
    DayNumberIsMonotone(d, e);
  }

  lemma SameWeek(d: Date, e: Date, n: int, k: int)
    requires ValidDate(d) && ValidDate(e) && n == DayNumber(d) && k == DayNumber(e)
    requires n - n % 7 <= k < n - n % 7 + 7
    ensures FirstDate(Weekly, e) == FirstDate(Weekly, d) && NextFirstDate(Weekly, e) == NextFirstDate(Weekly, d)
  {
    SameMonday(n, k);
    WeekShape(d, n);
    WeekShape(e, k);
    SameDate(FirstDate(Weekly, e), FirstDate(Weekly, d), n - n % 7);
    SameDate(NextFirstDate(Weekly, e), NextFirstDate(Weekly, d), n - n % 7 + 7);
  }

  lemma SameDate(a: Date, b: Date, n: int)
    requires ValidDate(a) && ValidDate(b) && DayNumber(a) == n == DayNumber(b)
    ensures a == b
  {
    DayNumberIsMonotone(a, b);
    DayNumberIsMonotone(b, a);
  }

  lemma OwnWindow(p: Period, d: Date)
    requires ValidDate(d)
    ensures DateWithin(p, d, d)
  {
    WindowsFollowTheCalendar(p, d);
    DayNumberIsMonotone(d, FirstDate(p, d));
    DayNumberIsMonotone(d, NextFirstDate(p, d));
  }

  lemma NextWindow(p: Period, d: Date)
    requires ValidDate(d)
    ensures FirstDate(p, NextFirstDate(p, d)) == NextFirstDate(p, d)
  {
    if p.Weekly? {
      WeekShape(d, DayNumber(d));
      OnMonday(NextFirstDate(Weekly, d));
    }
  }

  lemma OnMonday(d: Date)
    requires ValidDate(d) && Weekday(d) == 0
    ensures FirstDate(Weekly, d) == d
  {
    CivilInvertsDayNumber(d);
  }

  // ---------------------------------------------------------------- the partition of time

  predicate Within(p: Period, now: Instant, t: Instant) {
    AtOrBefore(PeriodStart(p, now), t) && !AtOrBefore(PeriodNextStart(p, now), t)
  }

  /** Every instant lies in its own window. */
  lemma NowIsInWindow(p: Period, now: Instant)
    ensures Within(p, now, now)
  {
    OwnWindow(p, now.date);
  }

  /** Two instants share a window exactly when one lies between the other's start and next start. */
  lemma WindowsPartitionTime(p: Period, now: Instant, t: Instant)
    ensures
      Within(p, now, t)
      <==> PeriodStart(p, t) == PeriodStart(p, now) && PeriodNextStart(p, t) == PeriodNextStart(p, now)
  {
    NowIsInWindow(p, t);
    if Within(p, now, t) {
      SameWindow(p, now.date, t.date);
    }
  }

  /** Windows follow one another without a gap. */
  lemma NextStartBeginsAWindow(p: Period, now: Instant)
    ensures PeriodStart(p, PeriodNextStart(p, now)) == PeriodNextStart(p, now)
  {
    NextWindow(p, now.date);
  }
}
