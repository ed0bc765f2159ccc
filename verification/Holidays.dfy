/** Is today a holiday, and when does the run of holidays it belongs to end? */
module Holidays {
  import opened Calendar
  import opened HolidayDates

  ghost predicate Sorted(ts: seq<Instant>)
  {
    forall i, j :: 0 <= i < j < |ts| ==> ts[i] <= ts[j]
  }

  ghost predicate OnIncreasingDays(ts: seq<Instant>)
  {
    forall i, j :: 0 <= i < j < |ts| ==> DayOf(ts[i]) < DayOf(ts[j])
  }

  ghost predicate Midnights(ts: seq<Instant>)
  {
    forall i :: 0 <= i < |ts| ==> ClockOf(ts[i]) == 0
  }

  ghost function Days(ts: seq<Instant>): set<int>
  {
    set i | 0 <= i < |ts| :: DayOf(ts[i])
  }

  function Later(days: set<int>, day: int): set<int>
  {
    set d | d in days && day < d
  }

  /** The first day after the given one that is not in the set: the simple specification. */
  ghost function FirstFree(days: set<int>, day: int): (free: int)
    ensures day < free && free !in days
    ensures forall d :: day < d < free ==> d in days
    decreases Later(days, day)
  {
    if day + 1 in days then
      assert Later(days, day + 1) < Later(days, day) by { assert day + 1 in Later(days, day); }
      FirstFree(days, day + 1)
    else day + 1
  }

  /** The specification names one day only. */
  lemma FirstFreeUnique(days: set<int>, day: int, free: int)
    requires day < free && free !in days
    requires forall d :: day < d < free ==> d in days
    ensures free == FirstFree(days, day)
  {}

  lemma {:induction false} RunFits(days: set<int>, first: int, last: int)
    requires first <= last && (forall d :: first <= d < last ==> d in days)
    ensures last - first <= |days|
    decreases last - first
  {
    if first < last {
      assert first in days;
      var rest := days - {first};
      assert forall d :: first + 1 <= d < last ==> d in days;
      assert forall d :: first + 1 <= d < last ==> d in rest;
      RunFits(rest, first + 1, last);
    }
  }

  /** The wait until the run ends is positive and at most one day per listed holiday. */
  lemma WaitBounds(days: set<int>, now: Instant)
    requires DayOf(now) in days
    ensures 0 < At(FirstFree(days, DayOf(now)), 0) - now <= DAY * |days|
    ensures |days| <= 106_751 ==> At(FirstFree(days, DayOf(now)), 0) - now < 0x8000_0000_0000_0000
  {
    RunFits(days, DayOf(now), FirstFree(days, DayOf(now)));
    SplitIsAt(now);
  }

  lemma BelowAll(head: Instant, rest: seq<Instant>, ts: seq<Instant>, t: Instant)
    requires multiset(rest) == multiset(ts) + multiset{t} && Sorted(rest)
    requires head <= t && forall i :: 0 <= i < |ts| ==> head <= ts[i]
    ensures Sorted([head] + rest)
  {
    forall i | 0 <= i < |rest|
      ensures head <= rest[i]
    {
      assert rest[i] in multiset(rest);
      assert rest[i] == t || rest[i] in ts;
    }
  }

  function Insert(ts: seq<Instant>, t: Instant): seq<Instant>
  {
    if ts == [] || t <= ts[0] then [t] + ts else [ts[0]] + Insert(ts[1..], t)
  }

  /** What the library sort returns. */
  function SortInstants(ts: seq<Instant>): seq<Instant>
  {
    if ts == [] then [] else Insert(SortInstants(ts[1..]), ts[0])
  }

  lemma {:induction false} InsertKeepsSorted(ts: seq<Instant>, t: Instant)
    requires Sorted(ts)
    ensures Sorted(Insert(ts, t)) && multiset(Insert(ts, t)) == multiset(ts) + multiset{t}
  {
    if ts != [] && ts[0] < t {
      assert ts == [ts[0]] + ts[1..];
      InsertKeepsSorted(ts[1..], t);
      BelowAll(ts[0], Insert(ts[1..], t), ts[1..], t);
    }
  }

  /** The ascending rearrangement of a list. */
  lemma {:induction false} SortSorts(ts: seq<Instant>)
    ensures Sorted(SortInstants(ts)) && multiset(SortInstants(ts)) == multiset(ts)
  {
    if ts != [] {
      assert ts == [ts[0]] + ts[1..];
      SortSorts(ts[1..]);
      InsertKeepsSorted(SortInstants(ts[1..]), ts[0]);
    }
  }

  lemma SameElements(a: seq<Instant>, b: seq<Instant>)
    requires multiset(a) == multiset(b)
    ensures forall t :: t in a <==> t in b
    ensures Days(a) == Days(b)
  {
    forall t
      ensures t in a <==> t in b
    {
      assert t in a <==> t in multiset(a);
      assert t in b <==> t in multiset(b);
    }
    forall d | d in Days(a)
      ensures d in Days(b)
    {
      var i :| 0 <= i < |a| && DayOf(a[i]) == d;
      assert a[i] in b;
    }
    forall d | d in Days(b)
      ensures d in Days(a)
    {
      var i :| 0 <= i < |b| && DayOf(b[i]) == d;
      assert b[i] in a;
    }
  }

  /** The list read so far, its kept instants, and the last one kept. */
  ghost predicate KeepsOnePerDay(read: seq<Instant>, result: seq<Instant>, last: Instant)
  {
    && OnIncreasingDays(result) && Days(result) == Days(read)
    && result != [] && result[|result| - 1] == last
    && read != [] && DayOf(read[|read| - 1]) == DayOf(last)
    && forall t :: t in result ==> t in read
  }

  lemma KeepNext(read: seq<Instant>, result: seq<Instant>, last: Instant, t: Instant)
    requires KeepsOnePerDay(read, result, last) && read[|read| - 1] <= t
    ensures DayOf(last) == DayOf(t) ==> KeepsOnePerDay(read + [t], result, last)
    ensures DayOf(last) != DayOf(t) ==> KeepsOnePerDay(read + [t], result + [t], t)
  {
    AppendDay(read, t);
    AppendDay(result, t);
    assert DayOf(last) in Days(read);
  }

  /** One instant of every day of the list, in order. */
  method RemoveRedundancy(sortedList: seq<Instant>) returns (result: seq<Instant>)
    requires Sorted(sortedList)
    ensures OnIncreasingDays(result) && Days(result) == Days(sortedList)
    ensures forall t :: t in result ==> t in sortedList
  {
    if |sortedList| == 0 {
      return sortedList;
    }
    result := [sortedList[0]];
    var lastElement := sortedList[0];
    assert sortedList[..1] == [sortedList[0]];
    for n := 1 to |sortedList|
      invariant KeepsOnePerDay(sortedList[..n], result, lastElement)
    {
      var t := sortedList[n];
      var same := IsItSameDay(t, lastElement);
      assert sortedList[..n][n - 1] <= t;
      KeepNext(sortedList[..n], result, lastElement, t);
      assert sortedList[..n + 1] == sortedList[..n] + [t];
      if !same {
        result := result + [t];
        lastElement := t;
      }
    }
    assert sortedList[..|sortedList|] == sortedList;
  }

  lemma AppendDay(ts: seq<Instant>, t: Instant)
    ensures Days(ts + [t]) == Days(ts) + {DayOf(t)}
  {
    var all := ts + [t];
    assert forall i :: 0 <= i < |ts| ==> all[i] == ts[i];
    assert all[|ts|] == t;
  }

  lemma AppendDays(ts: seq<Instant>, more: seq<Instant>)
    ensures Days(ts + more) == Days(ts) + Days(more)
  {
    var all := ts + more;
    assert forall i :: 0 <= i < |ts| ==> all[i] == ts[i];
    assert forall i :: 0 <= i < |more| ==> all[|ts| + i] == more[i];
  }

  /** All the holiday dates, ascending and one a day, whatever order the map is read in. */
  method GetAllHolidaysDates(holidays: map<string, seq<Instant>>) returns (dates: seq<Instant>)
    requires AtMidnights(holidays)
    ensures OnIncreasingDays(dates) && Midnights(dates) && Days(dates) == DaysOf(holidays)
  {
    var dateList: seq<Instant> := [];
    var remaining := holidays.Keys;
    while remaining != {}
      invariant remaining <= holidays.Keys
      invariant Midnights(dateList)
      invariant Days(dateList) == DaysOf(holidays - remaining)
      decreases remaining
    {
      var name :| name in remaining;
      AppendDays(dateList, holidays[name]);
      ghost var read := holidays - remaining;
      remaining := remaining - {name};
      MoreDays(read, holidays - remaining, name);
      dateList := dateList + holidays[name];
    }
    assert holidays - {} == holidays;
    var sorted := SortInstants(dateList);
    SortSorts(dateList);
    SameElements(sorted, dateList);
    dates := RemoveRedundancy(sorted);
    forall i | 0 <= i < |dates|
      ensures ClockOf(dates[i]) == 0
    {
      assert dates[i] in sorted && dates[i] in dateList;
    }
  }

  lemma MoreDays(read: map<string, seq<Instant>>, more: map<string, seq<Instant>>, name: string)
    requires name !in read && name in more && more == read[name := more[name]]
    ensures DaysOf(more) == DaysOf(read) + Days(more[name])
  {
    forall d | d in DaysOf(more)
      ensures d in DaysOf(read) + Days(more[name])
    {
      var n, i :| n in more && 0 <= i < |more[n]| && DayOf(more[n][i]) == d;
    }
    forall d | d in DaysOf(read) + Days(more[name])
      ensures d in DaysOf(more)
    {
      if d in DaysOf(read) {
        var n, i :| n in read && 0 <= i < |read[n]| && DayOf(read[n][i]) == d;
        assert more[n][i] == read[n][i];
      } else {
        var i :| 0 <= i < |more[name]| && DayOf(more[name][i]) == d;
      }
    }
  }

  /** What the recursion computes: a day for each further consecutive date, and the rest of
      the target's own day when the target is in the list. */
  ghost function ConsecutiveWait(now: Instant, days: set<int>, target: int): int
  {
    At(FirstFree(days, target) - target - 1, 0) + if target in days then At(target + 1, 0) - now else 0
  }

  lemma NextDateListed(now: Instant, days: set<int>, rest: set<int>, target: int)
    requires target + 1 in days && target + 1 !in rest
    requires forall d :: target + 1 < d ==> (d in days <==> d in rest)
    ensures ConsecutiveWait(now, days, target)
         == ConsecutiveWait(now, rest, target + 1) + (if target in days then At(target + 1, 0) - now else 0) + DAY
  {}

  method CheckConsecutiveDates(now: Instant, dateList: seq<Instant>, targetDate: Instant) returns (wait: int)
    requires OnIncreasingDays(dateList) && Midnights(dateList) && ClockOf(targetDate) == 0
    ensures wait == ConsecutiveWait(now, Days(dateList), DayOf(targetDate))
    decreases |dateList|
  {
    ghost var target := DayOf(targetDate);
    SplitIsAt(targetDate);
    var durationOffset := 0;
    for index := 0 to |dateList|
      invariant durationOffset == if target in Days(dateList[..index]) then At(target + 1, 0) - now else 0
      invariant target + 1 !in Days(dateList[..index])
    {
      var date := dateList[index];
      var same := IsItSameDay(targetDate, date);
      SplitIsAt(date);
      AppendDay(dateList[..index], date);
      assert dateList[..index + 1] == dateList[..index] + [date];
      if same {
        durationOffset := date + DAY - now;
      } else if targetDate < date {
        if date - targetDate == DAY {
          var rest := dateList[index + 1..];
          SuffixDays(dateList, index, rest);
          assert target in Days(dateList) <==> target in Days(dateList[..index]);
          wait := CheckConsecutiveDates(now, rest, date);
          NextDateListed(now, Days(dateList), Days(rest), target);
          return wait + durationOffset + DAY;
        }
      }
    }
    assert dateList[..|dateList|] == dateList;
    FirstFreeUnique(Days(dateList), target, target + 1);
    return durationOffset;
  }

  /** Cutting an ascending list after a date keeps exactly the later days. */
  lemma SuffixDays(dateList: seq<Instant>, index: nat, rest: seq<Instant>)
    requires index < |dateList| && rest == dateList[index + 1..] && OnIncreasingDays(dateList)
    ensures forall d :: DayOf(dateList[index]) < d ==> (d in Days(dateList) <==> d in Days(rest))
    ensures forall d :: d in Days(rest) ==> DayOf(dateList[index]) < d
    ensures DayOf(dateList[index]) in Days(dateList)
    ensures forall d :: d < DayOf(dateList[index]) ==> (d in Days(dateList) <==> d in Days(dateList[..index]))
  {}

  /** The flag and the wait depend on nothing but the set of holiday days, although both the
      names here and the dates in GetAllHolidaysDates are visited in any order. */
  method IsItHoliday(now: Instant, holidays: map<string, seq<Instant>>) returns (isHoliday: bool, wait: int)
    requires AtMidnights(holidays)
    ensures isHoliday <==> DayOf(now) in DaysOf(holidays)
    ensures isHoliday ==> now + wait == At(FirstFree(DaysOf(holidays), DayOf(now)), 0)
    ensures !isHoliday ==> wait == 0
  {
    isHoliday, wait := false, 0;
    var remaining := holidays.Keys;
    while remaining != {}
      invariant remaining <= holidays.Keys
      invariant forall name, i :: name in holidays - remaining && 0 <= i < |holidays[name]| ==>
                  DayOf(holidays[name][i]) != DayOf(now)
      decreases remaining
    {
      var name :| name in remaining;
      var dates := holidays[name];
      for i := 0 to |dates|
        invariant forall k :: 0 <= k < i ==> DayOf(dates[k]) != DayOf(now)
      {
        var same := IsItSameDay(now, dates[i]);
        if same {
          var allHolidays := GetAllHolidaysDates(holidays);
          wait := CheckConsecutiveDates(now, allHolidays, dates[i]);
          assert DayOf(dates[i]) in DaysOf(holidays);
          return true, wait;
        }
      }
      remaining := remaining - {name};
    }
  }
}
