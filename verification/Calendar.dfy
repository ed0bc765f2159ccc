/** Instants, days and civil dates in one fixed-offset location.

    An instant is a number of nanoseconds since the local midnight that starts
    0000-01-01, so a day is the instant divided by 24 hours and Go's weekday
    (0 is Sunday) is a function of the day number. */
module Calendar {
  const DAY := 86_400_000_000_000
  const MINUTE := 60_000_000_000

  type Instant = int

  /** A wall-clock time as `15:04` writes it: whole minutes within one day. */
  type ClockTime = c: int | 0 <= c < DAY && c % MINUTE == 0 witness 0

  function DayOf(t: Instant): int { t / DAY }

  function ClockOf(t: Instant): (c: int)
    ensures 0 <= c < DAY
  {
    t % DAY
  }

  function At(day: int, clock: int): Instant { day * DAY + clock }

  lemma AtSplits(day: int, clock: int)
    requires 0 <= clock < DAY
    ensures DayOf(At(day, clock)) == day && ClockOf(At(day, clock)) == clock
  {}

  lemma SplitIsAt(t: Instant)
    ensures t == At(DayOf(t), ClockOf(t))
  {}

  /** 0000-01-01 was a Saturday in the proleptic Gregorian calendar. */
  function WeekdayOf(day: int): (w: int)
    ensures 0 <= w < 7
  {
    (day + 6) % 7
  }

  datatype Date = Date(year: int, month: int, day: int)

  predicate Leap(year: int) { year % 4 == 0 && (year % 100 != 0 || year % 400 == 0) }

  function MonthLength(month: int, leap: bool): int
  {
    if month == 2 then (if leap then 29 else 28)
    else if month == 4 || month == 6 || month == 9 || month == 11 then 30
    else 31
  }

  predicate IsDate(date: Date)
  {
    1 <= date.month <= 12 && 1 <= date.day <= MonthLength(date.month, Leap(date.year))
  }

  /** The months have their lengths, and February has 29 days in leap years. */
  lemma CalendarDays(year: int, month: int, day: int)
    ensures IsDate(Date(year, month, day)) <==>
            || (month in {1, 3, 5, 7, 8, 10, 12} && 1 <= day <= 31)
            || (month in {4, 6, 9, 11} && 1 <= day <= 30)
            || (month == 2 && 1 <= day <= 28)
            || (month == 2 && day == 29 && year % 4 == 0 && (year % 100 != 0 || year % 400 == 0))
  {}

  /** The day number of 1 January of the year. */
  function YearStart(year: int): int
  {
    365 * year + (year + 3) / 4 - (year + 99) / 100 + (year + 399) / 400
  }

  /** Days of the year before the first of the month; the thirteenth month is the next year. */
  function MonthStart(month: int, leap: bool): int
    requires 1 <= month <= 13
  {
    [0, 31, 59, 90, 120, 151, 181, 212, 243, 273, 304, 334, 365][month - 1] + if leap && 2 < month then 1 else 0
  }

  /** The day number of a civil date: what parsing a date denotes. */
  function DayNumber(date: Date): int
    requires IsDate(date)
  {
    YearStart(date.year) + MonthStart(date.month, Leap(date.year)) + date.day - 1
  }

  lemma QuadStep(x: int)
    ensures (x + 4) / 4 == (x + 3) / 4 + if x % 4 == 0 then 1 else 0
  {}

  lemma CenturyStep(x: int)
    ensures (x + 100) / 100 == (x + 99) / 100 + if x % 100 == 0 then 1 else 0
  {}

  lemma CycleStep(x: int)
    ensures (x + 400) / 400 == (x + 399) / 400 + if x % 400 == 0 then 1 else 0
  {}

  lemma Multiples(x: int)
    ensures x % 400 == 0 ==> x % 100 == 0
    ensures x % 100 == 0 ==> x % 4 == 0
  {}

  lemma YearLength(year: int)
    ensures YearStart(year + 1) - YearStart(year) == if Leap(year) then 366 else 365
  {
    QuadStep(year);
    CenturyStep(year);
    CycleStep(year);
    Multiples(year);
  }

  lemma {:induction false} YearStartsIncrease(a: int, b: int)
    requires a < b
    ensures YearStart(a + 1) <= YearStart(b)
    decreases b - a
  {
    if a + 1 < b {
      YearStartsIncrease(a + 1, b);
      YearLength(a + 1);
    }
  }

  lemma MonthStartsIncrease(a: int, b: int, leap: bool)
    requires 1 <= a < b <= 13
    ensures MonthStart(a, leap) + MonthLength(a, leap) <= MonthStart(b, leap)
  {}

  lemma MonthEnds(month: int, leap: bool)
    requires 1 <= month <= 12
    ensures MonthStart(month + 1, leap) == MonthStart(month, leap) + MonthLength(month, leap)
  {}

  /** The days of a date stay within its year. */
  lemma WithinYear(date: Date)
    requires IsDate(date)
    ensures YearStart(date.year) <= DayNumber(date) < YearStart(date.year + 1)
  {
    var leap := Leap(date.year);
    YearLength(date.year);
    MonthStartsIncrease(date.month, 13, leap);
  }

  /** No two civil dates denote the same day. */
  lemma DayNumberInjective(a: Date, b: Date)
    requires IsDate(a) && IsDate(b) && DayNumber(a) == DayNumber(b)
    ensures a == b
  {
    WithinYear(a);
    WithinYear(b);
    if a.year < b.year {
      YearStartsIncrease(a.year, b.year);
    } else if b.year < a.year {
      YearStartsIncrease(b.year, a.year);
    }
    var leap := Leap(a.year);
    if a.month < b.month {
      MonthStartsIncrease(a.month, b.month, leap);
    } else if b.month < a.month {
      MonthStartsIncrease(b.month, a.month, leap);
    }
  }

  function YearFrom(day: int, year: int): (y: int)
    requires YearStart(year) <= day
    ensures YearStart(y) <= day < YearStart(y + 1)
    decreases day - YearStart(year)
  {
    YearLength(year);
    if day < YearStart(year + 1) then year else YearFrom(day, year + 1)
  }

  function MonthFrom(offset: int, month: int, leap: bool): (m: int)
    requires 1 <= month <= 12 && MonthStart(month, leap) <= offset < MonthStart(13, leap)
    ensures 1 <= m <= 12 && MonthStart(m, leap) <= offset < MonthStart(m + 1, leap)
    decreases 12 - month
  {
    if offset < MonthStart(month + 1, leap) then month else MonthFrom(offset, month + 1, leap)
  }

  /** A year to start the search for the year of a day from. */
  function YearBelow(day: int): (y: int)
    ensures YearStart(y) <= day
  {
    if 0 <= day then 0
    else
      var quads, centuries, cycles := (day + 3) / 4, (day + 99) / 100, (day + 399) / 400;
      assert quads <= 0 && day <= 100 * centuries && cycles <= 0;
      assert YearStart(day) == 365 * day + quads - centuries + cycles;
      day
  }

  /** The year, month and day that an instant of this day shows. */
  function DateOf(day: int): (date: Date)
    ensures IsDate(date) && DayNumber(date) == day
  {
    var year := YearFrom(day, YearBelow(day));
    var leap := Leap(year);
    var offset := day - YearStart(year);
    YearLength(year);
    var month := MonthFrom(offset, 1, leap);
    MonthEnds(month, leap);
    Date(year, month, offset - MonthStart(month, leap) + 1)
  }

  /** Comparing year, month and day is comparing day numbers. */
  method IsItSameDay(a: Instant, b: Instant) returns (same: bool)
    ensures same <==> DayOf(a) == DayOf(b)
  {
    var x, y := DateOf(DayOf(a)), DateOf(DayOf(b));
    if x.year == y.year && x.month == y.month && x.day == y.day {
      return true;
    }
    return false;
  }

  /** Reading back the date of a day number gives the date itself. */
  lemma DateRoundTrip(date: Date)
    requires IsDate(date)
    ensures DateOf(DayNumber(date)) == date
  {
    DayNumberInjective(DateOf(DayNumber(date)), date);
  }

  // ---- the weekday by the civil date ----

  /** January and February count as months 13 and 14 of the year before. */
  lemma LateMonthsShift(year: int)
    ensures (year - 1) / 4 == (year + 3) / 4 - 1
    ensures (year - 1) / 100 == (year + 99) / 100 - 1
    ensures (year - 1) / 400 == (year + 399) / 400 - 1
  {}

  lemma LeapShift(year: int)
    ensures year / 4 - year / 100 + year / 400
         == (year + 3) / 4 - (year + 99) / 100 + (year + 399) / 400 - 1 + if Leap(year) then 1 else 0
  {
    Multiples(year);
    assert year / 4 == (year + 3) / 4 - if year % 4 == 0 then 0 else 1;
    assert year / 100 == (year + 99) / 100 - if year % 100 == 0 then 0 else 1;
    assert year / 400 == (year + 399) / 400 - if year % 400 == 0 then 0 else 1;
  }

  /** The months from March on start at multiples of a week from where the congruence expects them. */
  lemma MonthsFit(month: int, leap: bool)
    requires 1 <= month <= 12
    ensures month <= 2 ==> (MonthStart(month, leap) - 13 * (month + 13) / 5 + 1) % 7 == 0
    ensures 3 <= month ==>
              (MonthStart(month, leap) - (if leap then 1 else 0) - 13 * (month + 1) / 5) % 7 == 0
  {}

  lemma SameWeekday(a: int, b: int, weeks: int, rest: int)
    requires a - b == 7 * weeks + rest && rest % 7 == 0
    ensures (a + 6) % 7 == (b + 6) % 7
  {
    assert (a + 6) - (b + 6) == 7 * (weeks + rest / 7);
  }

  lemma WeekdayFromMarch(date: Date)
    requires IsDate(date) && 3 <= date.month
    ensures var year := date.year;
            WeekdayOf(DayNumber(date))
            == (date.day + 13 * (date.month + 1) / 5 + year + year / 4 - year / 100 + year / 400 + 6) % 7
  {
    var year, leap := date.year, Leap(date.year);
    var shift := MonthStart(date.month, leap) - 13 * (date.month + 1) / 5 - if leap then 1 else 0;
    LeapShift(year);
    MonthsFit(date.month, leap);
    SameWeekday(DayNumber(date),
                date.day + 13 * (date.month + 1) / 5 + year + year / 4 - year / 100 + year / 400, 52 * year, shift);
  }

  lemma WeekdayBeforeMarch(date: Date)
    requires IsDate(date) && date.month <= 2
    ensures var year := date.year - 1;
            WeekdayOf(DayNumber(date))
            == (date.day + 13 * (date.month + 13) / 5 + year + year / 4 - year / 100 + year / 400 + 6) % 7
  {
    var year, leap := date.year - 1, Leap(date.year);
    var shift := MonthStart(date.month, leap) - 13 * (date.month + 13) / 5 + 1;
    LateMonthsShift(date.year);
    MonthsFit(date.month, leap);
    SameWeekday(DayNumber(date),
                date.day + 13 * (date.month + 13) / 5 + year + year / 4 - year / 100 + year / 400,
                52 * date.year, shift);
  }

  /** Zeller's congruence gives the weekday of every civil date. */
  lemma WeekdayByCongruence(date: Date)
    requires IsDate(date)
    ensures var late := date.month <= 2;
            var year, month := if late then date.year - 1 else date.year, if late then date.month + 12 else date.month;
            WeekdayOf(DayNumber(date))
            == (date.day + 13 * (month + 1) / 5 + year + year / 4 - year / 100 + year / 400 + 6) % 7
  {
    if date.month <= 2 {
      WeekdayBeforeMarch(date);
    } else {
      WeekdayFromMarch(date);
    }
  }
}
