/**
  Calendar arithmetic on local dates, as the server reads them through the
  JavaScript Date accessors (getFullYear, getMonth, getDate, getHours, ...).
  Months count from 0 (January) to 11 (December), as getMonth() does.
  Time zones and daylight-saving shifts are not modelled: a date is its local
  calendar fields.
*/
module Calendar {

  /** Time of day: hours, minutes, seconds and milliseconds. */
  datatype Clock = Clock(hour: int, minute: int, second: int, millis: int)

  /** A local date-time: year, month 0..11, day of month, time of day. */
  datatype Date = Date(year: int, month: int, day: int, time: Clock)

  const Midnight := Clock(0, 0, 0, 0)

  /** The time `setHours(23, 59, 59, 999)` puts on a date. */
  const EndOfDay := Clock(23, 59, 59, 999)

  /** Gregorian leap-year rule (proleptic, as JavaScript applies it to every year). */
  predicate LeapYear(y: int) {
    (y % 4 == 0 && y % 100 != 0) || y % 400 == 0
  }

  function DaysInMonth(y: int, m: int): (n: int)
    requires 0 <= m < 12
    ensures 28 <= n <= 31
    ensures m == 1 ==> (n == 29 <==> LeapYear(y))
  {
    if m == 1 then (if LeapYear(y) then 29 else 28)
    else if m == 3 || m == 5 || m == 8 || m == 10 then 30
    else 31
  }

  predicate ValidClock(c: Clock) {
    0 <= c.hour < 24 && 0 <= c.minute < 60 && 0 <= c.second < 60 && 0 <= c.millis < 1000
  }

  /** Every JavaScript Date value that is not "Invalid Date" has normalised fields. */
  predicate ValidDate(d: Date) {
    0 <= d.month < 12 && 1 <= d.day <= DaysInMonth(d.year, d.month) && ValidClock(d.time)
  }

  /** Months elapsed since month 0 of year 0. */
  function MonthIndex(d: Date): int {
    d.year * 12 + d.month
  }

  /** Milliseconds since midnight. */
  function ClockMillis(c: Clock): int {
    ((c.hour * 60 + c.minute) * 60 + c.second) * 1000 + c.millis
  }

  const DayMillis := 86_400_000

  /**
    A millisecond count that orders dates as their getTime() values do.
    Every month is given 32 day slots, so that on normalised dates a later
    month, day or time always has a larger count.
  */
  function Stamp(d: Date): int {
    (MonthIndex(d) * 32 + d.day) * DayMillis + ClockMillis(d.time)
  }

  /** Chronological order: the order of `<=` on two Date objects. */
  predicate LessEq(a: Date, b: Date) {
    Stamp(a) <= Stamp(b)
  }

  /** Chronological order: the order of `<` on two Date objects. */
  predicate Less(a: Date, b: Date) {
    Stamp(a) < Stamp(b)
  }

  /** Field-by-field comparison of two times of day. */
  predicate ClockLessEq(a: Clock, b: Clock) {
    || a.hour < b.hour
    || (a.hour == b.hour && a.minute < b.minute)
    || (a.hour == b.hour && a.minute == b.minute && a.second < b.second)
    || (a.hour == b.hour && a.minute == b.minute && a.second == b.second && a.millis <= b.millis)
  }

  /** Field-by-field comparison of two dates: year, then month, day and time. */
  predicate FieldsLessEq(a: Date, b: Date) {
    || a.year < b.year
    || (a.year == b.year && a.month < b.month)
    || (a.year == b.year && a.month == b.month && a.day < b.day)
    || (a.year == b.year && a.month == b.month && a.day == b.day && ClockLessEq(a.time, b.time))
  }

  lemma ClockMillisOrder(a: Clock, b: Clock)
    requires ValidClock(a) && ValidClock(b)
    ensures 0 <= ClockMillis(a) < DayMillis
    ensures ClockLessEq(a, b) <==> ClockMillis(a) <= ClockMillis(b)
    ensures ClockMillis(a) == ClockMillis(b) ==> a == b
  {
  }

  /** On normalised dates the chronological order is the field-by-field order. */
  lemma {:induction false} LessEqIsFieldOrder(a: Date, b: Date)
    requires ValidDate(a) && ValidDate(b)
    ensures LessEq(a, b) <==> FieldsLessEq(a, b)
  {
    ClockMillisOrder(a.time, b.time);
    if MonthIndex(a) < MonthIndex(b) {
      MonthIndexLess(a, b);
    } else if MonthIndex(b) < MonthIndex(a) {
      MonthIndexLess(b, a);
    } else {
      MonthIndexInjective(a.year, a.month, b.year, b.month);
    }
  }

  /** Two normalised dates with the same time value are the same date. */
  lemma {:induction false} LessEqAntisymmetric(a: Date, b: Date)
    requires ValidDate(a) && ValidDate(b)
    requires LessEq(a, b) && LessEq(b, a)
    ensures a == b
  {
    ClockMillisOrder(a.time, b.time);
    LessEqMonthIndex(a, b);
    LessEqMonthIndex(b, a);
    MonthIndexInjective(a.year, a.month, b.year, b.month);
    assert a.day == b.day;
  }

  /** On normalised dates chronological order never goes back in month index. */
  lemma {:induction false} LessEqMonthIndex(a: Date, b: Date)
    requires ValidDate(a) && ValidDate(b)
    requires LessEq(a, b)
    ensures MonthIndex(a) <= MonthIndex(b)
  {
    ClockMillisOrder(a.time, b.time);
  }

  /** A later month index means a later date. */
  lemma {:induction false} MonthIndexLess(a: Date, b: Date)
    requires ValidDate(a) && ValidDate(b)
    requires MonthIndex(a) < MonthIndex(b)
    ensures Less(a, b)
  {
    ClockMillisOrder(a.time, b.time);
  }

  /** Year and month are determined by the month index. */
  lemma {:induction false} MonthIndexInjective(y1: int, m1: int, y2: int, m2: int)
    requires 0 <= m1 < 12 && 0 <= m2 < 12
    requires y1 * 12 + m1 == y2 * 12 + m2
    ensures y1 == y2 && m1 == m2
  {
  }

  function Min(a: int, b: int): int {
    if a < b then a else b
  }

  /**
    Steps `d` by `months` calendar months (negative steps go back), carrying
    whole years, keeping the time of day and clamping the day of month to the
    last day of the target month. Both the first-of-month date and the
    last-day lookup are built with `new Date(year, month, ...)`, so a year
    0..99 is read as 1900..1999 on the way.
  */
  function AddMonthsKeepDay(d: Date, months: int): (r: Date)
    requires ValidDate(d)
    ensures ValidDate(r)
    ensures MonthIndex(r) == ConstructorYear(d.year) * 12 + d.month + months
    ensures !(0 <= d.year <= 99) ==> MonthIndex(r) == MonthIndex(d) + months
    ensures r.day == Min(d.day, DaysInMonth(ConstructorYear(r.year), r.month))
    ensures r.time == d.time
  {
    var target := d.month + months;
    var year := ConstructorYear(d.year) + target / 12;
    var month := target % 12;
    var lastDay := DaysInMonth(ConstructorYear(year), month);
    ShortYearMonthLength(year, month);
    Date(year, month, Min(d.day, lastDay), d.time)
  }

  /** Reading a year 0..99 as 19xx never lengthens a month: only year 0 (leap) and 1900 (not) differ. */
  lemma ShortYearMonthLength(y: int, m: int)
    requires 0 <= m < 12
    ensures DaysInMonth(ConstructorYear(y), m) <= DaysInMonth(y, m)
    ensures y != 0 ==> DaysInMonth(ConstructorYear(y), m) == DaysInMonth(y, m)
  {
    if 0 < y <= 99 {
      assert (1900 + y) % 4 == y % 4 && (1900 + y) % 100 != 0;
    }
  }

  /** The result's year and month are `month + months` normalised into 0..11, carried onto the constructor's year. */
  lemma AddMonthsYearMonth(d: Date, months: int)
    requires ValidDate(d)
    ensures AddMonthsKeepDay(d, months).month == (d.month + months) % 12
    ensures AddMonthsKeepDay(d, months).year == ConstructorYear(d.year) + (d.month + months) / 12
  {
    var r := AddMonthsKeepDay(d, months);
    var t := d.month + months;
    MonthIndexInjective(r.year, r.month, ConstructorYear(d.year) + t / 12, t % 12);
  }

  /** Stepping by zero months gives back the same date, except that a year 0..99 becomes 19xx. */
  lemma AddMonthsZero(d: Date)
    requires ValidDate(d)
    ensures !(0 <= d.year <= 99) ==> AddMonthsKeepDay(d, 0) == d
    ensures AddMonthsKeepDay(d, 0).year == ConstructorYear(d.year) && AddMonthsKeepDay(d, 0).month == d.month
  {
    var r := AddMonthsKeepDay(d, 0);
    MonthIndexInjective(r.year, r.month, ConstructorYear(d.year), d.month);
    ShortYearMonthLength(d.year, d.month);
  }

  /**
    A date in a year 0..99 jumps to 19xx: 0024-01-15 plus one month is
    1924-02-15, and 29 February of year 0 plus zero months is 28 February
    1900 (1900 is no leap year).
  */
  lemma ShortYearJump()
    ensures AddMonthsKeepDay(Date(24, 0, 15, Midnight), 1) == Date(1924, 1, 15, Midnight)
    ensures AddMonthsKeepDay(Date(0, 1, 29, Midnight), 0) == Date(1900, 1, 28, Midnight)
  {
    AddMonthsYearMonth(Date(24, 0, 15, Midnight), 1);
    AddMonthsYearMonth(Date(0, 1, 29, Midnight), 0);
  }

  /** One month on from a date past the years 0..99: the next month (or January of the next year), day clamped. */
  lemma AddOneMonth(d: Date)
    requires ValidDate(d) && d.year >= 100
    ensures AddMonthsKeepDay(d, 1) ==
              if d.month == 11 then Date(d.year + 1, 0, d.day, d.time)
              else Date(d.year, d.month + 1, Min(d.day, DaysInMonth(d.year, d.month + 1)), d.time)
  {
    AddMonthsYearMonth(d, 1);
  }

  /** One month on is strictly later: a payment period is never empty. */
  lemma AddMonthIsLater(d: Date)
    requires ValidDate(d)
    ensures Less(d, AddMonthsKeepDay(d, 1))
  {
    MonthIndexLess(d, AddMonthsKeepDay(d, 1));
  }

  /** Without clamping (a day that every month has) and outside the years 0..99, steps compose. */
  lemma {:induction false} AddMonthsCompose(d: Date, a: int, b: int)
    requires ValidDate(d) && d.day <= 28
    requires !(0 <= d.year <= 99) && !(0 <= AddMonthsKeepDay(d, a).year <= 99)
    ensures AddMonthsKeepDay(AddMonthsKeepDay(d, a), b) == AddMonthsKeepDay(d, a + b)
  {
    var r1 := AddMonthsKeepDay(AddMonthsKeepDay(d, a), b);
    var r2 := AddMonthsKeepDay(d, a + b);
    MonthIndexInjective(r1.year, r1.month, r2.year, r2.month);
  }

  /** Stepping never moves the day of month forward. */
  lemma AddMonthsDayNotLater(d: Date, months: int)
    requires ValidDate(d)
    ensures AddMonthsKeepDay(d, months).day <= d.day
  {
  }

  /** Leap years: 2024-01-31 plus one month is 2024-02-29; 2023-01-31 gives 2023-02-28. */
  lemma FebruaryClamp()
    ensures AddMonthsKeepDay(Date(2024, 0, 31, Midnight), 1) == Date(2024, 1, 29, Midnight)
    ensures AddMonthsKeepDay(Date(2023, 0, 31, Midnight), 1) == Date(2023, 1, 28, Midnight)
  {
  }

  /** A clamped day stays clamped when steps are chained: Jan 31, Feb 28, Mar 28, but Jan 31 + 2 is Mar 31. */
  lemma ClampedDayStaysClamped()
    ensures AddMonthsKeepDay(AddMonthsKeepDay(Date(2023, 0, 31, Midnight), 1), 1) == Date(2023, 2, 28, Midnight)
    ensures AddMonthsKeepDay(Date(2023, 0, 31, Midnight), 2) == Date(2023, 2, 31, Midnight)
  {
    FebruaryClamp();
  }

  /** Year carry in both directions: Dec + 1 is January of the next year, Jan - 1 is December of the previous one. */
  lemma YearCarry()
    ensures AddMonthsKeepDay(Date(2023, 11, 15, Midnight), 1) == Date(2024, 0, 15, Midnight)
    ensures AddMonthsKeepDay(Date(2024, 0, 31, Midnight), -1) == Date(2023, 11, 31, Midnight)
    ensures AddMonthsKeepDay(Date(2024, 2, 31, Midnight), -13) == Date(2023, 1, 28, Midnight)
  {
  }

  /** The first day of the month after `d`'s month. */
  function FirstOfNextMonth(d: Date): (r: Date)
    requires ValidDate(d)
    ensures ValidDate(r) && r.day == 1 && r.time == d.time
    ensures MonthIndex(r) == MonthIndex(d) + 1
  {
    if d.month == 11 then Date(d.year + 1, 0, 1, d.time) else Date(d.year, d.month + 1, 1, d.time)
  }

  /**
    `n` calendar days after `d`, at the same time of day: what adding
    n * 24 hours of milliseconds gives when no daylight-saving shift intervenes.
  */
  function AddDays(d: Date, n: nat): (r: Date)
    requires ValidDate(d)
    ensures ValidDate(r) && r.time == d.time
    ensures DayNumber(r) == DayNumber(d) + n
    ensures LessEq(d, r)
    ensures n == 0 ==> r == d
    decreases n
  {
    var lastDay := DaysInMonth(d.year, d.month);
    if d.day + n <= lastDay then
      d.(day := d.day + n)
    else
      var next := FirstOfNextMonth(d);
      MonthIndexLess(d, next);
      NextMonthDayNumber(d);
      AddDays(next, n - (lastDay - d.day + 1))
  }

  /** `AddDays` is the only valid date, at `d`'s time of day, that lies `n` days after `d`. */
  lemma AddDaysUnique(d: Date, n: nat, e: Date)
    requires ValidDate(d) && ValidDate(e) && e.time == d.time
    requires DayNumber(e) == DayNumber(d) + n
    ensures e == AddDays(d, n)
  {
    DayNumberInjective(e, AddDays(d, n));
  }

  /** The last day of the month before `d`'s month. */
  function LastOfPreviousMonth(d: Date): (r: Date)
    requires ValidDate(d)
    ensures ValidDate(r) && r.time == d.time
    ensures MonthIndex(r) == MonthIndex(d) - 1
    ensures r.day == DaysInMonth(r.year, r.month)
  {
    if d.month == 0 then Date(d.year - 1, 11, 31, d.time) else Date(d.year, d.month - 1, DaysInMonth(d.year, d.month - 1), d.time)
  }

  /** The last day of the previous month lies `d.day` days before `d`. */
  lemma PreviousMonthDayNumber(d: Date)
    requires ValidDate(d)
    ensures DayNumber(LastOfPreviousMonth(d)) == DayNumber(d) - d.day
  {
    if d.month == 0 {
      YearLength(d.year - 1);
      MonthLength(d.year - 1, 11);
    } else {
      MonthLength(d.year, d.month - 1);
    }
  }

  /** `n` calendar days before `d`, at the same time of day. */
  function SubDays(d: Date, n: nat): (r: Date)
    requires ValidDate(d)
    ensures ValidDate(r) && r.time == d.time
    ensures DayNumber(r) == DayNumber(d) - n
    ensures LessEq(r, d)
    decreases n
  {
    if n < d.day then
      d.(day := d.day - n)
    else
      var prev := LastOfPreviousMonth(d);
      MonthIndexLess(prev, d);
      PreviousMonthDayNumber(d);
      SubDays(prev, n - d.day)
  }

  /** `n` calendar days after `d` for any integer `n`: adding `n * 24` hours of milliseconds without a daylight-saving shift. */
  function ShiftDays(d: Date, n: int): (r: Date)
    requires ValidDate(d)
    ensures ValidDate(r) && r.time == d.time
    ensures DayNumber(r) == DayNumber(d) + n
    ensures n >= 0 ==> LessEq(d, r)
    ensures n <= 0 ==> LessEq(r, d)
  {
    if n >= 0 then AddDays(d, n) else SubDays(d, -n)
  }

  /** 45 days after 2024-02-01 02:00 is 2024-03-17 02:00 (February 2024 has 29 days). */
  lemma AddDaysExample()
    ensures AddDays(Date(2024, 1, 1, Clock(2, 0, 0, 0)), 45) == Date(2024, 2, 17, Clock(2, 0, 0, 0))
  {
  }

  /**
    Day count, independent of `AddDays`: days from 1 January of year 0 to the
    first day of year `y` (proleptic Gregorian), i.e. 365 a year plus one for
    every leap year before `y`.
  */
  function DaysBeforeYear(y: int): int {
    365 * y + (y + 3) / 4 - (y + 99) / 100 + (y + 399) / 400
  }

  /** Days from 1 January of year `y` to the first day of month `m` (m == 12 is the next 1 January). */
  function DaysBeforeMonth(y: int, m: int): int
    requires 0 <= m <= 12
  {
    [0, 31, 59, 90, 120, 151, 181, 212, 243, 273, 304, 334, 365][m] + (if m >= 2 && LeapYear(y) then 1 else 0)
  }

  /** The day number of a date: days since 1 January of year 0, ignoring the time of day. */
  function DayNumber(d: Date): int
    requires 0 <= d.month < 12
  {
    DaysBeforeYear(d.year) + DaysBeforeMonth(d.year, d.month) + d.day - 1
  }

  /** The month table agrees with `DaysInMonth`. */
  lemma MonthLength(y: int, m: int)
    requires 0 <= m < 12
    ensures DaysBeforeMonth(y, m + 1) == DaysBeforeMonth(y, m) + DaysInMonth(y, m)
  {
  }

  /** The year formula agrees with `LeapYear`: a year has 366 days exactly when it is a leap year. */
  lemma YearLength(y: int)
    ensures DaysBeforeYear(y + 1) == DaysBeforeYear(y) + DaysBeforeMonth(y, 12)
  {
    assert (y + 4) / 4 == (y + 3) / 4 + (if y % 4 == 0 then 1 else 0);
    assert (y + 100) / 100 == (y + 99) / 100 + (if y % 100 == 0 then 1 else 0);
    assert (y + 400) / 400 == (y + 399) / 400 + (if y % 400 == 0 then 1 else 0);
  }

  /** The first of the next month comes as many days after `d` as are left in `d`'s month. */
  lemma NextMonthDayNumber(d: Date)
    requires ValidDate(d)
    ensures DayNumber(FirstOfNextMonth(d)) == DayNumber(d) + DaysInMonth(d.year, d.month) - d.day + 1
  {
    MonthLength(d.year, d.month);
    YearLength(d.year);
  }

  /** A valid date's day number lies within its year. */
  lemma DayNumberWithinYear(d: Date)
    requires ValidDate(d)
    ensures DaysBeforeYear(d.year) <= DayNumber(d) < DaysBeforeYear(d.year + 1)
  {
    MonthLength(d.year, d.month);
    YearLength(d.year);
  }

  /** Day numbers of later years are larger. */
  lemma {:induction false} DaysBeforeYearMonotone(a: int, b: int)
    requires a <= b
    ensures DaysBeforeYear(a) <= DaysBeforeYear(b)
    decreases b - a
  {
    if a < b {
      DaysBeforeYearMonotone(a + 1, b);
      YearLength(a);
    }
  }

  /** Two valid dates with the same day number are the same calendar day. */
  lemma DayNumberInjective(a: Date, b: Date)
    requires ValidDate(a) && ValidDate(b) && DayNumber(a) == DayNumber(b)
    ensures a.year == b.year && a.month == b.month && a.day == b.day
  {
    DayNumberWithinYear(a);
    DayNumberWithinYear(b);
    if a.year < b.year {
      DaysBeforeYearMonotone(a.year + 1, b.year);
    } else if b.year < a.year {
      DaysBeforeYearMonotone(b.year + 1, a.year);
    }
    SameYearDayNumber(a, b);
  }

  /** Within one year, the month table separates months. */
  lemma SameYearDayNumber(a: Date, b: Date)
    requires ValidDate(a) && ValidDate(b) && a.year == b.year && DayNumber(a) == DayNumber(b)
    ensures a.month == b.month && a.day == b.day
  {
    MonthLength(a.year, a.month);
    MonthLength(b.year, b.month);
    if a.month < b.month {
      DaysBeforeMonthMonotone(a.year, a.month + 1, b.month);
    } else if b.month < a.month {
      DaysBeforeMonthMonotone(a.year, b.month + 1, a.month);
    }
  }

  lemma DaysBeforeMonthMonotone(y: int, m1: int, m2: int)
    requires 0 <= m1 <= m2 <= 12
    ensures DaysBeforeMonth(y, m1) <= DaysBeforeMonth(y, m2)
  {
  }

  /** The year `new Date(year, month, day)` uses: 0..99 mean 1900..1999. */
  function ConstructorYear(year: int): int {
    if 0 <= year <= 99 then 1900 + year else year
  }

  /**
    `new Date(year, month, day)`: local midnight, with an out-of-range month
    carried into the year and an out-of-range day carried into the following
    months (day 0 is the last day of the previous month).
  */
  function LocalDate(year: int, month: int, day: nat): (r: Date)
    ensures ValidDate(r) && r.time == Midnight
    ensures 0 <= month < 12 && 1 <= day <= DaysInMonth(ConstructorYear(year), month) ==>
              r == Date(ConstructorYear(year), month, day, Midnight)
  {
    var y := ConstructorYear(year) + month / 12;
    var m := month % 12;
    if day == 0 then
      if m == 0 then Date(y - 1, 11, 31, Midnight) else Date(y, m - 1, DaysInMonth(y, m - 1), Midnight)
    else
      var r := AddDays(Date(y, m, 1, Midnight), day - 1);
      assert 0 <= month < 12 ==> y == ConstructorYear(year) && m == month;
      r
  }

  /** Out-of-range days roll over: 31 February 2024 is 2 March 2024. */
  lemma LocalDateDayRollover()
    ensures LocalDate(2024, 1, 31) == Date(2024, 2, 2, Midnight)
  {
    assert DaysInMonth(2024, 1) == 29;
    assert FirstOfNextMonth(Date(2024, 1, 1, Midnight)) == Date(2024, 2, 1, Midnight);
    assert AddDays(Date(2024, 2, 1, Midnight), 1) == Date(2024, 2, 2, Midnight);
  }

  /** Day 0 of January 2024 is 31 December 2023, and a two-digit year means 19xx. */
  lemma LocalDateDayZeroAndShortYear()
    ensures LocalDate(2024, 0, 0) == Date(2023, 11, 31, Midnight)
    ensures LocalDate(24, 0, 15) == Date(1924, 0, 15, Midnight)
  {
    assert ConstructorYear(24) == 1924;
    assert DaysInMonth(1924, 0) == 31;
  }
}
