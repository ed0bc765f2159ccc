/** The holiday entries of a KronosApp: the webhook's language and the dates they denote. */
module HolidayDates {
  import opened Wrappers
  import opened Calendar
  import opened Text

  datatype Holiday = Holiday(name: string, date: string)

  /** The strings that match the webhook's pattern: a date, then any number of a slash and two digits. */
  predicate Accepted(s: string)
  {
    && 10 <= |s| && (|s| - 10) % 3 == 0
    && forall i :: 0 <= i < |s| ==>
         if i == 4 || i == 7 then s[i] == '-'
         else if 10 <= i && i % 3 == 1 then s[i] == '/'
         else IsDigit(s[i])
  }

  /** The accepted strings are a date, or an accepted string, a slash and two digits. */
  lemma AcceptedIsPattern(s: string)
    ensures Accepted(s) <==>
            || (|s| == 10 && AllDigits(s[..4]) && AllDigits(s[5..7]) && AllDigits(s[8..])
                && s == s[..4] + "-" + s[5..7] + "-" + s[8..])
            || (3 <= |s| && Accepted(s[..|s| - 3]) && s[|s| - 3] == '/' && AllDigits(s[|s| - 2..]))
  {
    if |s| == 10 && s == s[..4] + "-" + s[5..7] + "-" + s[8..] {
      assert forall i :: 0 <= i < 4 ==> s[i] == s[..4][i];
      assert s[5] == s[5..7][0] && s[6] == s[5..7][1] && s[8] == s[8..][0] && s[9] == s[8..][1];
    } else if 13 <= |s| {
      var n := |s| - 3;
      assert forall i :: 0 <= i < n ==> s[..n][i] == s[i];
      assert s[n + 1] == s[n + 1..][0] && s[n + 2] == s[n + 1..][1];
    }
  }

  function DayCount(s: string): nat
    requires Accepted(s)
  {
    (|s| - 10) / 3 + 1
  }

  function TwoDigits(s: string, i: nat): int
    requires i + 2 <= |s| && IsDigit(s[i]) && IsDigit(s[i + 1])
  {
    10 * DigitValue(s[i]) + DigitValue(s[i + 1])
  }

  /** The k-th day of an entry: its digits under the common year and month. */
  function NthDate(s: string, k: nat): Date
    requires Accepted(s) && k < DayCount(s)
  {
    Date(100 * TwoDigits(s, 0) + TwoDigits(s, 2), TwoDigits(s, 5), TwoDigits(s, 8 + 3 * k))
  }

  /** The midnight that starts the k-th day, if the calendar has that day. */
  function NthInstant(s: string, k: nat): Option<Instant>
    requires Accepted(s) && k < DayCount(s)
  {
    if IsDate(NthDate(s, k)) then Some(At(DayNumber(NthDate(s, k)), 0)) else None
  }

  /** What an accepted entry denotes, read off its characters: one midnight per day in order,
      or nothing when one of them is not a day of the calendar. */
  function Denotes(s: string): (dates: Option<seq<Instant>>)
    requires Accepted(s)
    ensures dates.None? <==> exists k :: 0 <= k < DayCount(s) && NthInstant(s, k).None?
    ensures dates.Some? ==> |dates.value| == DayCount(s)
    ensures dates.Some? ==> forall k :: 0 <= k < DayCount(s) ==> NthInstant(s, k) == Some(dates.value[k])
  {
    if forall k :: 0 <= k < DayCount(s) ==> NthInstant(s, k).Some? then
      Some(seq(DayCount(s), k requires 0 <= k < DayCount(s) => NthInstant(s, k).value))
    else None
  }

  /** Parsing one date of the layout `2006-01-02`. */
  function ParseDate(s: string): Option<Instant>
  {
    if |s| == 10 && Accepted(s) then NthInstant(s, 0) else None
  }

  lemma DashParts(s: string)
    requires Accepted(s)
    ensures Split(s, '-') == [s[..4], s[5..7], s[8..]]
  {
    IndexIs(s, '-', 4);
    var rest := s[5..];
    IndexIs(rest, '-', 2);
    assert rest[..2] == s[5..7] && rest[3..] == s[8..];
    assert s[4 + 1..] == rest;
    IndexIs(s[8..], '-', |s| - 8);
    assert Split(s[8..], '-') == [s[8..]];
    assert Split(rest, '-') == [s[5..7]] + Split(s[8..], '-');
    assert Split(s, '-') == [s[..4]] + Split(rest, '-');
  }

  /** Two characters at i, then every third place a slash and the next two. */
  function PartsFrom(s: string, i: nat): (parts: seq<string>)
    requires i + 2 <= |s|
    decreases |s| - i
  {
    if |s| < i + 5 then [s[i..]] else [s[i..i + 2]] + PartsFrom(s, i + 3)
  }

  lemma {:induction false} PartAt(s: string, i: nat, count: nat, k: nat)
    requires |s| == i + 3 * count - 1 && k < count
    ensures |PartsFrom(s, i)| == count
    ensures PartsFrom(s, i)[k] == s[i + 3 * k..i + 3 * k + 2]
    decreases count
  {
    if count != 1 {
      PartAt(s, i + 3, count - 1, if k == 0 then 0 else k - 1);
    }
  }

  lemma SlashAfterDay(s: string, i: nat)
    requires Accepted(s) && 8 <= i && i + 2 <= |s| && i % 3 == 2
    ensures s[i] != '/' && s[i + 1] != '/'
    ensures i + 2 < |s| ==> s[i + 2] == '/' && i + 5 <= |s|
  {}

  lemma SplitAfterTwo(t: string)
    requires 2 <= |t| && t[0] != '/' && t[1] != '/' && (2 < |t| ==> t[2] == '/')
    ensures |t| == 2 ==> Split(t, '/') == [t]
    ensures 2 < |t| ==> Split(t, '/') == [t[..2]] + Split(t[3..], '/')
  {
    IndexIs(t, '/', 2);
  }

  lemma {:induction false} SplitsIntoParts(s: string, i: nat)
    requires Accepted(s) && 8 <= i && i + 2 <= |s| && i % 3 == 2
    ensures Split(s[i..], '/') == PartsFrom(s, i)
    decreases |s| - i
  {
    SlashAfterDay(s, i);
    SplitAfterTwo(s[i..]);
    if i + 2 < |s| {
      SplitsIntoParts(s, i + 3);
      assert s[i..][3..] == s[i + 3..] && s[i..][..2] == s[i..i + 2];
    }
  }

  /** Two dashes between digits make a date. */
  lemma DashesMakeDate(year: string, month: string, day: string)
    requires |year| == 4 && |month| == 2 && |day| == 2
    requires AllDigits(year) && AllDigits(month) && AllDigits(day)
    ensures var s := year + "-" + month + "-" + day;
            && Accepted(s) && |s| == 10 && DayCount(s) == 1
            && NthDate(s, 0)
               == Date(100 * TwoDigits(year, 0) + TwoDigits(year, 2), TwoDigits(month, 0), TwoDigits(day, 0))
  {
    var s := year + "-" + month + "-" + day;
    assert s[0] == year[0] && s[1] == year[1] && s[2] == year[2] && s[3] == year[3] && s[4] == '-';
    assert s[5] == month[0] && s[6] == month[1] && s[7] == '-' && s[8] == day[0] && s[9] == day[1];
  }

  /** The string handed to the parser for the k-th day denotes the k-th date. */
  lemma NthParses(s: string, k: nat)
    requires Accepted(s) && k < DayCount(s)
    ensures 10 + 3 * k <= |s|
    ensures ParseDate(s[..4] + "-" + s[5..7] + "-" + s[8 + 3 * k..10 + 3 * k]) == NthInstant(s, k)
  {
    var i := 8 + 3 * k;
    DashesMakeDate(s[..4], s[5..7], s[i..i + 2]);
  }

  lemma DayParts(s: string)
    requires Accepted(s)
    ensures |Split(s[8..], '/')| == DayCount(s)
    ensures forall k :: 0 <= k < DayCount(s) ==> Split(s[8..], '/')[k] == s[8 + 3 * k..10 + 3 * k]
  {
    SplitsIntoParts(s, 8);
    PartsAt(s, DayCount(s));
  }

  lemma PartsAt(s: string, count: nat)
    requires |s| == 7 + 3 * count && 1 <= count
    ensures |PartsFrom(s, 8)| == count
    ensures forall k :: 0 <= k < count ==> PartsFrom(s, 8)[k] == s[8 + 3 * k..10 + 3 * k]
  {
    PartAt(s, 8, count, 0);
    forall k | 0 <= k < count
      ensures PartsFrom(s, 8)[k] == s[8 + 3 * k..10 + 3 * k]
    {
      PartAt(s, 8, count, k);
    }
  }

  /** Parsing a day under the year and month of its entry. */
  function ParseDay(base: string, day: string): Option<Instant> { ParseDate(base + "-" + day) }

  /** The parts the source indexes exist, and each assembled date parses to the day it stands for. */
  lemma PartsParse(s: string)
    requires Accepted(s)
    ensures |Split(s, '-')| == 3
    ensures |Split(Split(s, '-')[2], '/')| == DayCount(s)
    ensures forall k :: 0 <= k < DayCount(s) ==>
              ParseDay(Split(s, '-')[0] + "-" + Split(s, '-')[1], Split(Split(s, '-')[2], '/')[k]) == NthInstant(s, k)
  {
    DashParts(s);
    DayParts(s);
    forall k | 0 <= k < DayCount(s)
      ensures ParseDay(s[..4] + "-" + s[5..7], Split(s[8..], '/')[k]) == NthInstant(s, k)
    {
      NthParses(s, k);
    }
  }

  /** All days of an entry in order, or nothing when one of them does not parse. */
  predicate ReadAs(base: string, days: seq<string>, dates: Option<seq<Instant>>)
  {
    && (dates.None? <==> exists k :: 0 <= k < |days| && ParseDay(base, days[k]).None?)
    && (dates.Some? ==>
          |dates.value| == |days| && forall k :: 0 <= k < |days| ==> ParseDay(base, days[k]) == Some(dates.value[k]))
  }

  method ParseDays(base: string, days: seq<string>) returns (dates: Option<seq<Instant>>)
    ensures ReadAs(base, days, dates)
  {
    var dateList := [];
    for k := 0 to |days|
      invariant |dateList| == k
      invariant forall i :: 0 <= i < k ==> ParseDay(base, days[i]) == Some(dateList[i])
    {
      var date := ParseDay(base, days[k]);
      match date {
        case None => return None;
        case Some(value) => dateList := dateList + [value];
      }
    }
    return Some(dateList);
  }

  /** What reading an entry may lead to: its dates, an error, or a part that does not exist. */
  datatype Extracted = Dates(dates: seq<Instant>) | NotADate | OutOfRange
  {
    function ToOption(): Option<seq<Instant>> { if Dates? then Some(dates) else None }
  }

  /** For every string: at least two dashes are needed, and then the days of the third part decide.
      For a string the webhook accepts, exactly what it denotes. */
  method ExtractDatesFromHoliday(combinedDates: string) returns (extracted: Extracted)
    ensures extracted.OutOfRange? <==> multiset(combinedDates)['-'] < 2
    ensures !extracted.OutOfRange? ==>
              exists base, month, days, rest ::
                Split(combinedDates, '-') == [base, month, days] + rest
                && ReadAs(base + "-" + month, Split(days, '/'), extracted.ToOption())
    ensures Accepted(combinedDates) ==>
              !extracted.OutOfRange? && extracted.ToOption() == Denotes(combinedDates)
  {
    SplitCounts(combinedDates, '-');
    ReadsWhatItDenotes(combinedDates);
    var parts := Split(combinedDates, '-');
    if |parts| < 3 {
      return OutOfRange;
    }
    var base := parts[0] + "-" + parts[1];
    var days := Split(parts[2], '/');
    var dates := ParseDays(base, days);
    extracted := match dates case Some(value) => Dates(value) case None => NotADate;
    assert parts == [parts[0], parts[1], parts[2]] + parts[3..];
  }

  lemma SameDates(s: string, base: string, days: seq<string>, dates: Option<seq<Instant>>)
    requires Accepted(s) && |days| == DayCount(s)
    requires forall k :: 0 <= k < |days| ==> ParseDay(base, days[k]) == NthInstant(s, k)
    requires ReadAs(base, days, dates)
    ensures dates == Denotes(s)
  {
    if dates.None? {
      var k :| 0 <= k < |days| && ParseDay(base, days[k]).None?;
      assert NthInstant(s, k).None?;
    } else {
      assert forall k :: 0 <= k < DayCount(s) ==> NthInstant(s, k) == Some(dates.value[k]);
      assert Denotes(s).Some? && dates.value == Denotes(s).value;
    }
  }

  lemma ReadsWhatItDenotes(s: string)
    ensures var parts := Split(s, '-');
            Accepted(s) ==> |parts| == 3 && forall dates ::
              ReadAs(parts[0] + "-" + parts[1], Split(parts[2], '/'), dates) ==> dates == Denotes(s)
  {
    if Accepted(s) {
      PartsParse(s);
      var parts := Split(s, '-');
      var base, days := parts[0] + "-" + parts[1], Split(parts[2], '/');
      forall dates | ReadAs(base, days, dates)
        ensures dates == Denotes(s)
      {
        SameDates(s, base, days, dates);
      }
    }
  }

  /** An entry denotes dates exactly when each of its days is in the calendar, and then the k-th date
      is the midnight that starts the k-th day. */
  lemma DenotesItsDays(s: string)
    requires Accepted(s)
    ensures Denotes(s).Some? <==> forall k :: 0 <= k < DayCount(s) ==> IsDate(NthDate(s, k))
    ensures Denotes(s).Some? ==>
              |Denotes(s).value| == DayCount(s)
              && forall k :: 0 <= k < DayCount(s) ==> Denotes(s).value[k] == At(DayNumber(NthDate(s, k)), 0)
  {
    forall k: nat | k < DayCount(s)
      ensures NthInstant(s, k).Some? <==> IsDate(NthDate(s, k))
    {}
  }

  /** Every date of one entry falls on a midnight, in one year and month. */
  lemma OneMonth(s: string, i: nat)
    requires Accepted(s) && Denotes(s).Some? && i < |Denotes(s).value|
    ensures ClockOf(Denotes(s).value[i]) == 0
    ensures DateOf(DayOf(Denotes(s).value[i])) == NthDate(s, i)
    ensures NthDate(s, i).year == NthDate(s, 0).year && NthDate(s, i).month == NthDate(s, 0).month
  {
    assert NthInstant(s, i).Some?;
    AtSplits(DayNumber(NthDate(s, i)), 0);
    DateRoundTrip(NthDate(s, i));
  }

  predicate AllAccepted(holidays: seq<Holiday>)
  {
    forall i :: 0 <= i < |holidays| ==> Accepted(holidays[i].date)
  }

  /** A later entry of the same name replaces this one. */
  predicate Replaced(holidays: seq<Holiday>, i: nat)
    requires i < |holidays|
  {
    exists j :: i < j < |holidays| && holidays[j].name == holidays[i].name
  }

  /** The map the source builds: each name with the dates of its last entry. */
  ghost predicate IsHolidayMap(holidays: seq<Holiday>, dates: map<string, seq<Instant>>)
    requires AllAccepted(holidays)
  {
    && (forall i :: 0 <= i < |holidays| ==> Denotes(holidays[i].date).Some? && holidays[i].name in dates)
    && (forall i :: 0 <= i < |holidays| && !Replaced(holidays, i) ==>
          dates[holidays[i].name] == Denotes(holidays[i].date).value)
    && (forall name :: name in dates ==>
          exists i :: 0 <= i < |holidays| && holidays[i].name == name && !Replaced(holidays, i))
  }

  method ExtractHolidays(holidays: seq<Holiday>) returns (dates: Option<map<string, seq<Instant>>>)
    requires AllAccepted(holidays)
    ensures dates.Some? <==> forall i :: 0 <= i < |holidays| ==> Denotes(holidays[i].date).Some?
    ensures dates.Some? ==> IsHolidayMap(holidays, dates.value)
  {
    var byName: map<string, seq<Instant>> := map[];
    for n := 0 to |holidays|
      invariant IsHolidayMap(holidays[..n], byName)
    {
      var extracted := ExtractDatesFromHoliday(holidays[n].date);
      if extracted.NotADate? {
        assert Denotes(holidays[n].date).None?;
        return None;
      }
      LastEntryWins(holidays[..n], holidays[n], byName, extracted.dates);
      assert holidays[..n + 1] == holidays[..n] + [holidays[n]];
      byName := byName[holidays[n].name := extracted.dates];
    }
    assert holidays[..|holidays|] == holidays;
    return Some(byName);
  }

  lemma LastEntryWins(before: seq<Holiday>, last: Holiday, dates: map<string, seq<Instant>>, value: seq<Instant>)
    requires AllAccepted(before + [last]) && AllAccepted(before) && Accepted(last.date)
    requires IsHolidayMap(before, dates) && Denotes(last.date) == Some(value)
    ensures IsHolidayMap(before + [last], dates[last.name := value])
  {
    var all := before + [last];
    assert all[|before|] == last && !Replaced(all, |before|);
    forall i | 0 <= i < |before|
      ensures all[i] == before[i]
      ensures Replaced(all, i) <==> Replaced(before, i) || before[i].name == last.name
    {
      if Replaced(before, i) {
        var j :| i < j < |before| && before[j].name == before[i].name;
        assert all[j].name == all[i].name;
      }
    }
    var extended := dates[last.name := value];
    forall name | name in extended
      ensures exists i :: 0 <= i < |all| && all[i].name == name && !Replaced(all, i)
    {
      if name != last.name {
        var i :| 0 <= i < |before| && before[i].name == name && !Replaced(before, i);
        assert all[i].name == name && !Replaced(all, i);
      }
    }
  }

  /** The days the schedule holds as holidays. */
  ghost function DaysOf(dates: map<string, seq<Instant>>): set<int>
  {
    set name, i | name in dates && 0 <= i < |dates[name]| :: DayOf(dates[name][i])
  }

  ghost predicate AtMidnights(dates: map<string, seq<Instant>>)
  {
    forall name, i :: name in dates && 0 <= i < |dates[name]| ==> ClockOf(dates[name][i]) == 0
  }

  /** The day is one that some entry lists. */
  ghost predicate ListedBy(holidays: seq<Holiday>, i: nat, day: int)
    requires AllAccepted(holidays) && i < |holidays|
  {
    exists k :: 0 <= k < DayCount(holidays[i].date) && IsDate(NthDate(holidays[i].date, k))
             && DayNumber(NthDate(holidays[i].date, k)) == day
  }

  lemma EntryDays(holidays: seq<Holiday>, i: nat, day: int)
    requires AllAccepted(holidays) && i < |holidays| && Denotes(holidays[i].date).Some?
    ensures ListedBy(holidays, i, day) <==>
            exists k :: 0 <= k < |Denotes(holidays[i].date).value| && DayOf(Denotes(holidays[i].date).value[k]) == day
  {
    var dates := Denotes(holidays[i].date).value;
    forall k | 0 <= k < |dates|
      ensures IsDate(NthDate(holidays[i].date, k)) && DayOf(dates[k]) == DayNumber(NthDate(holidays[i].date, k))
    {
      assert NthInstant(holidays[i].date, k).Some?;
      AtSplits(DayNumber(NthDate(holidays[i].date, k)), 0);
    }
  }

  /** An entry that is not replaced gives the map its dates. */
  lemma DayInForce(holidays: seq<Holiday>, dates: map<string, seq<Instant>>, i: nat, day: int)
    requires AllAccepted(holidays) && IsHolidayMap(holidays, dates)
    requires i < |holidays| && !Replaced(holidays, i) && ListedBy(holidays, i, day)
    ensures day in DaysOf(dates)
  {
    EntryDays(holidays, i, day);
    var listed := Denotes(holidays[i].date).value;
    var k :| 0 <= k < |listed| && DayOf(listed[k]) == day;
    assert dates[holidays[i].name] == listed;
  }

  /** Every date of the map comes from an entry that is not replaced. */
  lemma EntryOf(holidays: seq<Holiday>, dates: map<string, seq<Instant>>, name: string, k: nat) returns (i: nat)
    requires AllAccepted(holidays) && IsHolidayMap(holidays, dates)
    requires name in dates && k < |dates[name]|
    ensures i < |holidays| && !Replaced(holidays, i) && ListedBy(holidays, i, DayOf(dates[name][k]))
    ensures ClockOf(dates[name][k]) == 0
  {
    i :| 0 <= i < |holidays| && holidays[i].name == name && !Replaced(holidays, i);
    assert dates[name] == Denotes(holidays[i].date).value;
    EntryDays(holidays, i, DayOf(dates[name][k]));
    OneMonth(holidays[i].date, k);
  }

  /** The holidays in force are exactly the days listed by entries that no later entry of
      the same name replaces. */
  lemma HolidaysInForce(holidays: seq<Holiday>, dates: map<string, seq<Instant>>, day: int)
    requires AllAccepted(holidays) && IsHolidayMap(holidays, dates)
    ensures day in DaysOf(dates) <==>
            exists i :: 0 <= i < |holidays| && !Replaced(holidays, i) && ListedBy(holidays, i, day)
    ensures AtMidnights(dates)
  {
    if day in DaysOf(dates) {
      var name, k :| name in dates && 0 <= k < |dates[name]| && DayOf(dates[name][k]) == day;
      var i := EntryOf(holidays, dates, name, k);
    }
    forall i: nat | i < |holidays| && !Replaced(holidays, i) && ListedBy(holidays, i, day)
      ensures day in DaysOf(dates)
    {
      DayInForce(holidays, dates, i, day);
    }
    forall name, k | name in dates && 0 <= k < |dates[name]|
      ensures ClockOf(dates[name][k]) == 0
    {
      var i := EntryOf(holidays, dates, name, k);
    }
  }

  /** With distinct names no listed day is dropped. */
  lemma DistinctNamesKeepAll(holidays: seq<Holiday>, dates: map<string, seq<Instant>>, i: nat, day: int)
    requires AllAccepted(holidays) && IsHolidayMap(holidays, dates)
    requires forall a, b :: 0 <= a < b < |holidays| ==> holidays[a].name != holidays[b].name
    requires i < |holidays| && ListedBy(holidays, i, day)
    ensures day in DaysOf(dates)
  {
    HolidaysInForce(holidays, dates, day);
  }

  /** An entry that a later one of the same name replaces loses every day that no entry
      left in force lists. */
  lemma ReplacedEntryDropsDay(holidays: seq<Holiday>, dates: map<string, seq<Instant>>, i: nat, day: int)
    requires AllAccepted(holidays) && IsHolidayMap(holidays, dates)
    requires i < |holidays| && ListedBy(holidays, i, day)
    ensures day !in DaysOf(dates)
            <==> forall j :: 0 <= j < |holidays| && ListedBy(holidays, j, day) ==> Replaced(holidays, j)
  {
    HolidaysInForce(holidays, dates, day);
  }

  lemma FirstEid()
    ensures Accepted("2024-04-10") && DayCount("2024-04-10") == 1 && NthDate("2024-04-10", 0) == Date(2024, 4, 10)
  {}

  lemma SecondEid()
    ensures Accepted("2024-06-16") && DayCount("2024-06-16") == 1 && NthDate("2024-06-16", 0) == Date(2024, 6, 16)
  {}

  lemma EidEntries(first: Holiday, second: Holiday, holidays: seq<Holiday>)
    requires first == Holiday("Eid", "2024-04-10") && second == Holiday("Eid", "2024-06-16")
    requires holidays == [first, second]
    ensures AllAccepted(holidays) && Replaced(holidays, 0) && !Replaced(holidays, 1)
    ensures var day := DayNumber(Date(2024, 4, 10)); ListedBy(holidays, 0, day) && !ListedBy(holidays, 1, day)
  {
    FirstEid();
    SecondEid();
    assert holidays[1].name == holidays[0].name;
    assert NthDate(holidays[0].date, 0) == Date(2024, 4, 10);
    assert NthDate(holidays[1].date, 0) == Date(2024, 6, 16);
  }

  /** Such entries exist: the first Eid of this list is no holiday of any map the source may build. */
  lemma EidIsDropped(first: Holiday, second: Holiday, holidays: seq<Holiday>)
    requires first == Holiday("Eid", "2024-04-10") && second == Holiday("Eid", "2024-06-16")
    requires holidays == [first, second]
    ensures AllAccepted(holidays) && Replaced(holidays, 0) && !Replaced(holidays, 1)
    ensures var day := DayNumber(Date(2024, 4, 10));
            && ListedBy(holidays, 0, day) && !ListedBy(holidays, 1, day)
            && forall dates :: IsHolidayMap(holidays, dates) ==> day !in DaysOf(dates)
  {
    EidEntries(first, second, holidays);
    var day := DayNumber(Date(2024, 4, 10));
    forall dates | IsHolidayMap(holidays, dates)
      ensures day !in DaysOf(dates)
    {
      ReplacedEntryDropsDay(holidays, dates, 0, day);
    }
  }
}
