/** Reading the schedule fields of a KronosApp and deciding from them. */
module SleepSchedules {
  import opened Wrappers
  import opened Calendar
  import opened Text
  import opened HolidayDates
  import opened Holidays
  import opened Schedule
  import Weekdays

  /** The schedule fields as the user writes them; zoneKnown says whether the time zone database
      has the zone the user names. */
  datatype Spec = Spec(
    startSleep: string, endSleep: string, weekDays: string, zoneKnown: bool, holidays: seq<Holiday>,
    forceSleep: bool, forceWake: bool)

  datatype SleepSchedule = SleepSchedule(
    now: Instant, window: Window, weekdays: seq<int>, holidays: map<string, seq<Instant>>)

  /** The strings the parsers are handed: what the validating webhook accepts, and "*", the weekday
      default of the defaulting webhook, which the validating one refuses. */
  predicate Admitted(spec: Spec)
  {
    (spec.weekDays == "*" || Weekdays.Accepted(spec.weekDays)) && AllAccepted(spec.holidays)
  }

  /** The layout `15:04`: one or two digits of the hour, a colon, two digits of the minute. */
  function ParseClock(s: string): Option<ClockTime>
  {
    if s == [] || !IsDigit(s[0]) then None
    else
      var twoDigits := 2 <= |s| && IsDigit(s[1]);
      var hour := if twoDigits then 10 * DigitValue(s[0]) + DigitValue(s[1]) else DigitValue(s[0]);
      var rest := s[if twoDigits then 2 else 1..];
      if |rest| != 3 || rest[0] != ':' || !IsDigit(rest[1]) || !IsDigit(rest[2]) then None
      else
        var minute := 10 * DigitValue(rest[1]) + DigitValue(rest[2]);
        if 24 <= hour || 60 <= minute then None else Some((60 * hour + minute) * MINUTE)
  }

  /** The two ways to write an hour and a minute: before ten, the leading zero of the hour may be left out. */
  function Padded(n: int): string
    requires 0 <= n < 100
  {
    Digit(n / 10) + Digit(n % 10)
  }

  /** Every clock time is written by some string of the layout, and read back in nanoseconds. */
  lemma EveryClockIsWritten(hour: int, minute: int)
    requires 0 <= hour < 24 && 0 <= minute < 60
    ensures ParseClock(Padded(hour) + ":" + Padded(minute))
         == Some(3_600_000_000_000 * hour + 60_000_000_000 * minute)
    ensures hour < 10 ==>
              ParseClock(Digit(hour) + ":" + Padded(minute)) == Some(3_600_000_000_000 * hour + 60_000_000_000 * minute)
  {}

  /** Every other string is refused. */
  lemma OnlyClocksAreRead(s: string) returns (hour: int, minute: int)
    requires ParseClock(s).Some?
    ensures 0 <= hour < 24 && 0 <= minute < 60
    ensures s == Padded(hour) + ":" + Padded(minute) || (hour < 10 && s == Digit(hour) + ":" + Padded(minute))
  {
    var i := if 2 <= |s| && IsDigit(s[1]) then 2 else 1;
    hour := if i == 2 then 10 * DigitValue(s[0]) + DigitValue(s[1]) else DigitValue(s[0]);
    minute := 10 * DigitValue(s[i + 1]) + DigitValue(s[i + 2]);
    assert s == s[..i] + ":" + s[i + 1..];
    assert s[i + 1..] == [s[i + 1], s[i + 2]] == Padded(minute);
    assert i == 2 ==> s[..i] == [s[0], s[1]] == Padded(hour);
    assert i == 1 ==> s[..i] == [s[0]] == Digit(hour);
  }

  /** The weekday (0 is Sunday) is one the user's list names. */
  ghost predicate NamesWeekday(weekDays: string, w: int)
  {
    weekDays == "*" || (Weekdays.Accepted(weekDays) && Weekdays.Listed(weekDays, if w == 0 then 7 else w))
  }

  /** What the fields mean, or nothing when the zone is unknown or a clock time or a date is not one. */
  ghost function Meaning(spec: Spec): Option<Config>
    requires Admitted(spec)
  {
    match (ParseClock(spec.startSleep), ParseClock(spec.endSleep))
    case (Some(start), Some(end)) =>
      if !spec.zoneKnown || exists i :: 0 <= i < |spec.holidays| && Denotes(spec.holidays[i].date).None? then None
      else Some(Config(
                  start, end,
                  set w | 0 <= w < 7 && NamesWeekday(spec.weekDays, w),
                  set i, k | 0 <= i < |spec.holidays| && !Replaced(spec.holidays, i)
                          && 0 <= k < |Denotes(spec.holidays[i].date).value|
                    :: DayOf(Denotes(spec.holidays[i].date).value[k]),
                  spec.forceSleep, spec.forceWake))
    case _ => None
  }

  /** The schedule object holds what the configuration says, around the instant it was built at. */
  ghost predicate Represents(schedule: SleepSchedule, cfg: Config)
  {
    && schedule.window == WindowAround(cfg.startSleep, cfg.endSleep, schedule.now)
    && (forall w :: 0 <= w < 7 ==> (w in schedule.weekdays <==> w in cfg.weekdays))
    && AtMidnights(schedule.holidays) && DaysOf(schedule.holidays) == cfg.holidays
  }

  lemma HolidayDaysMatch(spec: Spec, dates: map<string, seq<Instant>>)
    requires Admitted(spec) && Meaning(spec).Some? && IsHolidayMap(spec.holidays, dates)
    ensures AtMidnights(dates) && DaysOf(dates) == Meaning(spec).value.holidays
  {
    HolidaysInForce(spec.holidays, dates, 0);
    forall day
      ensures day in DaysOf(dates) <==> day in Meaning(spec).value.holidays
    {
      HolidaysInForce(spec.holidays, dates, day);
      forall i | 0 <= i < |spec.holidays| {
        EntryDays(spec.holidays, i, day);
      }
    }
  }

  lemma WeekdaysMatch(weekDays: string, numerals: set<string>, w: int)
    requires 0 <= w < 7 && (weekDays == "*" || Weekdays.Accepted(weekDays))
    requires weekDays == "*" ==> numerals == Weekdays.Numerals(1, 7)
    requires Weekdays.Accepted(weekDays) ==>
               numerals == set d | 1 <= d <= 7 && Weekdays.Listed(weekDays, d) :: Itoa(d)
    ensures (exists numeral :: numeral in numerals && Weekdays.GoWeekday(numeral) == Some(w))
            <==> NamesWeekday(weekDays, w)
  {
    if weekDays == "*" {
      var d := if w == 0 then 7 else w;
      assert Itoa(d) in numerals && Weekdays.GoWeekday(Itoa(d)) == Some(w);
    } else {
      Weekdays.ListedWeekdays(weekDays, numerals, w);
    }
  }

  method NewSleepSchedule(spec: Spec, now: Instant) returns (schedule: Option<SleepSchedule>)
    requires Admitted(spec)
    ensures schedule.Some? <==> Meaning(spec).Some?
    ensures schedule.Some? <==>
              && spec.zoneKnown && ParseClock(spec.startSleep).Some? && ParseClock(spec.endSleep).Some?
              && forall i :: 0 <= i < |spec.holidays| ==> Denotes(spec.holidays[i].date).Some?
    ensures schedule.Some? ==>
              schedule.value.window
              == WindowAround(ParseClock(spec.startSleep).value, ParseClock(spec.endSleep).value, now)
    ensures schedule.Some? ==> schedule.value.now == now && Represents(schedule.value, Meaning(spec).value)
  {
    if !spec.zoneKnown {
      return None;
    }
    var holidays := ExtractHolidays(spec.holidays);
    if holidays.None? {
      return None;
    }
    Weekdays.NoEndlessDay(spec.weekDays);
    var numerals := Weekdays.ExtractWeekdays(spec.weekDays);
    var weekdays := Weekdays.MapWeekdays(numerals);
    var startClock, endClock := ParseClock(spec.startSleep), ParseClock(spec.endSleep);
    if startClock.None? || endClock.None? {
      return None;
    }
    var start, end := At(DayOf(now), startClock.value), At(DayOf(now), endClock.value);
    if end < start && end < now {
      end := end + DAY;
    }
    if end < start && now < end {
      start := start - DAY;
    }
    HolidayDaysMatch(spec, holidays.value);
    forall w | 0 <= w < 7 {
      WeekdaysMatch(spec.weekDays, numerals, w);
    }
    return Some(SleepSchedule(now, Window(start, end), weekdays, holidays.value));
  }

  /** The holiday flag, the decision and the holiday's wait are those of the configuration. */
  method IsTimeToSleep(schedule: SleepSchedule, spec: Spec, ghost cfg: Config)
    returns (isHoliday: bool, asleep: bool, wait: int)
    requires Represents(schedule, cfg) && spec.forceSleep == cfg.forceSleep && spec.forceWake == cfg.forceWake
    ensures isHoliday <==> DayOf(schedule.now) in cfg.holidays
    ensures asleep <==> Decides(cfg, schedule.now)
    ensures isHoliday ==> wait == Wait(cfg, schedule.now)
    ensures !isHoliday ==> GetRequeueTime(schedule.window, schedule.now) == Wait(cfg, schedule.now)
  {
    isHoliday, wait := IsItHoliday(schedule.now, schedule.holidays);
    if isHoliday {
      return true, true, wait;
    }
    if spec.forceSleep {
      return false, true, 0;
    }
    if spec.forceWake {
      return false, false, 0;
    }
    var isWeekdayIncluded := false;
    var today := WeekdayOf(DayOf(schedule.now));
    for n := 0 to |schedule.weekdays|
      invariant isWeekdayIncluded <==> today in schedule.weekdays[..n]
      invariant isWeekdayIncluded ==> !(schedule.window.start < schedule.now && schedule.now < schedule.window.end)
    {
      if today == schedule.weekdays[n] {
        isWeekdayIncluded := true;
        if schedule.window.start < schedule.now && schedule.now < schedule.window.end {
          return false, true, 0;
        }
      }
    }
    assert schedule.weekdays[..|schedule.weekdays|] == schedule.weekdays;
    if !isWeekdayIncluded {
      return false, true, 0;
    }
    return false, false, 0;
  }

  /** Some entry that no later one of its name replaces lists the day. */
  ghost predicate IsHoliday(spec: Spec, day: int)
    requires Admitted(spec)
  {
    exists i :: 0 <= i < |spec.holidays| && !Replaced(spec.holidays, i) && ListedBy(spec.holidays, i, day)
  }

  lemma HolidaysMean(spec: Spec, day: int)
    requires Admitted(spec) && Meaning(spec).Some?
    ensures day in Meaning(spec).value.holidays <==> IsHoliday(spec, day)
  {
    forall i | 0 <= i < |spec.holidays| {
      EntryDays(spec.holidays, i, day);
    }
  }

  lemma WeekdaysMean(spec: Spec, day: int)
    requires Admitted(spec) && Meaning(spec).Some?
    ensures WeekdayOf(day) in Meaning(spec).value.weekdays <==>
            spec.weekDays == "*" || Weekdays.Listed(spec.weekDays, if WeekdayOf(day) == 0 then 7 else WeekdayOf(day))
  {}

  /** Reading the schedule, deciding, and choosing when to look again: by the user's fields, the day
      and the clock time. */
  method Decide(spec: Spec, now: Instant) returns (valid: bool, asleep: bool, requeueTime: int)
    requires Admitted(spec)
    ensures valid <==> Meaning(spec).Some?
    ensures valid ==>
              (asleep <==> Decides(Meaning(spec).value, now)) && requeueTime == Wait(Meaning(spec).value, now)
    ensures valid <==>
              && spec.zoneKnown && ParseClock(spec.startSleep).Some? && ParseClock(spec.endSleep).Some?
              && forall i :: 0 <= i < |spec.holidays| ==> Denotes(spec.holidays[i].date).Some?
    ensures valid ==>
              var start, end := ParseClock(spec.startSleep).value, ParseClock(spec.endSleep).value;
              var day, clock := DayOf(now), ClockOf(now);
              var weekday := if WeekdayOf(day) == 0 then 7 else WeekdayOf(day);
              asleep <==>
                || IsHoliday(spec, day) || spec.forceSleep
                || (!spec.forceWake
                    && ((spec.weekDays != "*" && !Weekdays.Listed(spec.weekDays, weekday))
                        || (start < clock < end) || (end < start && (start < clock || clock < end))))
    ensures valid && !IsHoliday(spec, DayOf(now)) ==>
              var start, end := ParseClock(spec.startSleep).value, ParseClock(spec.endSleep).value;
              var day, clock := DayOf(now), ClockOf(now);
              now + requeueTime ==
                if clock == start || start <= end <= clock then At(day + 1, start)
                else if end < start < clock then At(day + 1, end)
                else if clock < start && (start <= end || end <= clock) then At(day, start)
                else At(day, end)
    ensures valid && IsHoliday(spec, DayOf(now)) ==>
              exists free :: now + requeueTime == At(free, 0) && DayOf(now) < free && !IsHoliday(spec, free)
                             && forall d :: DayOf(now) < d < free ==> IsHoliday(spec, d)
  {
    var schedule := NewSleepSchedule(spec, now);
    if schedule.None? {
      return false, false, 0;
    }
    ghost var cfg, day := Meaning(spec).value, DayOf(now);
    var isHoliday, holidayWait;
    isHoliday, asleep, holidayWait := IsTimeToSleep(schedule.value, spec, cfg);
    requeueTime := if isHoliday then holidayWait else GetRequeueTime(schedule.value.window, schedule.value.now);
    valid := true;
    HolidaysMean(spec, day);
    WeekdaysMean(spec, day);
    DecidesIdeally(cfg, now);
    if day in cfg.holidays {
      ghost var free := FirstFree(cfg.holidays, day);
      forall d | day < d <= free {
        HolidaysMean(spec, d);
      }
      assert now + requeueTime == At(free, 0);
    } else {
      DeadlineByClock(cfg, now);
    }
  }

  /** End to end: for fields that write two clock times, without force flags, on a day that is no
      holiday and that the weekdays name, the decision is asleep exactly inside the open cyclic
      interval between them. */
  lemma WrittenClocksDecide(spec: Spec, now: Instant, h1: int, m1: int, h2: int, m2: int)
    requires Admitted(spec) && Meaning(spec).Some? && !spec.forceSleep && !spec.forceWake
    requires 0 <= h1 < 24 && 0 <= m1 < 60 && 0 <= h2 < 24 && 0 <= m2 < 60
    requires spec.startSleep == Padded(h1) + ":" + Padded(m1) && spec.endSleep == Padded(h2) + ":" + Padded(m2)
    requires !IsHoliday(spec, DayOf(now)) && NamesWeekday(spec.weekDays, WeekdayOf(DayOf(now)))
    ensures var start := 3_600_000_000_000 * h1 + 60_000_000_000 * m1;
            var end := 3_600_000_000_000 * h2 + 60_000_000_000 * m2;
            Decides(Meaning(spec).value, now) <==>
              start < ClockOf(now) < end || (end < start && (start < ClockOf(now) || ClockOf(now) < end))
  {
    EveryClockIsWritten(h1, m1);
    EveryClockIsWritten(h2, m2);
    HolidaysMean(spec, DayOf(now));
    DecidesIdeally(Meaning(spec).value, now);
  }

  /** A working week on a Saturday at noon, outside a window from 18:00 to 20:41: asleep all day. */
  lemma SaturdayNoonSleeps(spec: Spec)
    requires spec == Spec("18:00", "20:41", "1-5", true, [], false, false)
    ensures Admitted(spec) && Meaning(spec).Some?
    ensures WeekdayOf(DayNumber(Date(2024, 4, 13))) == 6
    ensures Decides(Meaning(spec).value, At(DayNumber(Date(2024, 4, 13)), 12 * 3_600_000_000_000))
  {
    var day := DayNumber(Date(2024, 4, 13));
    EveryClockIsWritten(18, 0);
    EveryClockIsWritten(20, 41);
    assert Padded(18) + ":" + Padded(0) == "18:00" && Padded(20) + ":" + Padded(41) == "20:41";
    WeekdayByCongruence(Date(2024, 4, 13));
    AtSplits(day, 12 * 3_600_000_000_000);
    WorkingWeek();
  }

  /** A range has its first two numbers, a reversed one is empty, and commas separate. */
  lemma SomeLists()
    ensures Weekdays.Accepted("1-3-5") && forall d :: Weekdays.Listed("1-3-5", d) <==> 1 <= d <= 3
    ensures Weekdays.Accepted("5-1") && forall d :: !Weekdays.Listed("5-1", d)
    ensures Weekdays.Accepted("1,6-7") && forall d :: Weekdays.Listed("1,6-7", d) <==> d == 1 || 6 <= d <= 7
  {
    var a, b, c := "1-3-5", "5-1", "1,6-7";
    assert Weekdays.StartsItem(a, 0) && forall i :: Weekdays.StartsItem(a, i) ==> i == 0;
    forall d
      ensures Weekdays.Listed(a, d) <==> 1 <= d <= 3
    {
      assert Weekdays.Covers(a, 0, d) <==> 1 <= d <= 3;
    }
    assert forall i :: Weekdays.StartsItem(b, i) ==> i == 0;
    assert forall d :: !Weekdays.Covers(b, 0, d);
    assert Weekdays.StartsItem(c, 0) && Weekdays.StartsItem(c, 2);
    assert forall i :: Weekdays.StartsItem(c, i) ==> i == 0 || i == 2;
    forall d
      ensures Weekdays.Listed(c, d) <==> d == 1 || 6 <= d <= 7
    {
      assert Weekdays.Covers(c, 0, d) <==> d == 1;
      assert Weekdays.Covers(c, 2, d) <==> 6 <= d <= 7;
    }
  }

  lemma WorkingWeek()
    ensures Weekdays.Accepted("1-5") && forall d :: Weekdays.Listed("1-5", d) <==> 1 <= d <= 5
  {
    var s := "1-5";
    assert Weekdays.StartsItem(s, 0) && forall i :: Weekdays.StartsItem(s, i) ==> i == 0;
    forall d
      ensures Weekdays.Listed(s, d) <==> 1 <= d <= 5
    {
      assert Weekdays.Covers(s, 0, d) <==> 1 <= d <= 5;
    }
  }
}
