/** The weekday list of a KronosApp: the webhook's language and the two functions that read it. */
module Weekdays {
  import opened Wrappers
  import opened Text

  /** The strings that match the webhook's pattern: a day 1 to 7, then any number of
      a dash or a comma followed by a day. */
  predicate Accepted(s: string)
  {
    && |s| % 2 == 1
    && forall i :: 0 <= i < |s| ==> if i % 2 == 0 then '1' <= s[i] <= '7' else s[i] == '-' || s[i] == ','
  }

  /** The accepted strings are a day, or an accepted string, a dash or a comma, and a day. */
  lemma AcceptedIsPattern(s: string)
    ensures Accepted(s) <==>
            || (|s| == 1 && '1' <= s[0] <= '7')
            || (3 <= |s| && Accepted(s[..|s| - 2]) && s[|s| - 2] in "-," && '1' <= s[|s| - 1] <= '7')
  {
    if 3 <= |s| {
      assert forall i :: 0 <= i < |s| - 2 ==> s[..|s| - 2][i] == s[i];
    }
  }

  /** Position i starts an item of the comma-separated list. */
  predicate StartsItem(s: string, i: int)
  {
    0 <= i < |s| && i % 2 == 0 && (i == 0 || s[i - 1] == ',')
  }

  /** The item at i names the day: by itself, or as a range to the number after the first dash. */
  predicate Covers(s: string, i: int, day: int)
    requires Accepted(s) && StartsItem(s, i)
  {
    if i + 1 < |s| && s[i + 1] == '-' then DigitValue(s[i]) <= day <= DigitValue(s[i + 2])
    else DigitValue(s[i]) == day
  }

  /** What an accepted list means, read off the characters. */
  ghost predicate Listed(s: string, day: int)
    requires Accepted(s)
  {
    exists i :: StartsItem(s, i) && Covers(s, i, day)
  }

  function Numerals(first: nat, last: int): set<string>
  {
    set d: nat | first <= d <= last :: Itoa(d)
  }

  /** The numerals one item adds. */
  function ItemDays(item: string): set<string>
  {
    if '-' in item then
      var parts := Split(item, '-');
      if |parts| < 2 || Atoi(parts[0]) < 0 then {} else Numerals(Atoi(parts[0]), Atoi(parts[1]))
    else {item}
  }

  function UnionDays(items: seq<string>): set<string>
  {
    if items == [] then {} else ItemDays(items[0]) + UnionDays(items[1..])
  }

  /** A dashed item: its first two numbers are its first and third characters. */
  lemma DashedItem(item: string)
    requires Accepted(item) && ',' !in item && 3 <= |item|
    ensures item[1] == '-' && |Split(item, '-')| >= 2
    ensures Atoi(Split(item, '-')[0]) == DigitValue(item[0])
    ensures Atoi(Split(item, '-')[1]) == DigitValue(item[2])
  {
    var rest := item[2..];
    IndexIs(item, '-', 1);
    assert 3 < |item| ==> item[3] == '-';
    IndexIs(rest, '-', 1);
    AtoiDigit(item[..1]);
    AtoiDigit(rest[..1]);
    assert |rest| == 1 ==> rest == rest[..1];
    assert Split(item, '-') == [item[..1]] + Split(rest, '-');
  }

  /** The first item of an accepted list. */
  lemma FirstItem(s: string, k: nat)
    requires Accepted(s) && k == IndexOf(s, ',')
    ensures Accepted(s[..k]) && ',' !in s[..k] && k % 2 == 1
    ensures '-' in s[..k] <==> 3 <= k
    ensures 3 <= k ==> s[1] == '-'
  {}

  lemma CoveredNumerals(s: string, first: int, last: int)
    requires Accepted(s) && StartsItem(s, 0) && 1 <= first && last <= 7
    requires forall d :: Covers(s, 0, d) <==> first <= d <= last
    ensures Numerals(first, last) == set d | 1 <= d <= 7 && Covers(s, 0, d) :: Itoa(d)
  {
    var covered := set d | 1 <= d <= 7 && Covers(s, 0, d) :: Itoa(d);
    forall x | x in Numerals(first, last)
      ensures x in covered
    {
      var d: nat :| first <= d <= last && x == Itoa(d);
      assert Covers(s, 0, d);
    }
  }

  /** What the first item of an accepted list adds. */
  lemma FirstItemDays(s: string, k: nat)
    requires Accepted(s) && k == IndexOf(s, ',')
    ensures k % 2 == 1
    ensures ItemDays(s[..k]) == set d | 1 <= d <= 7 && Covers(s, 0, d) :: Itoa(d)
    ensures '-' in s[..k] ==> |Split(s[..k], '-')| >= 2
    ensures '-' in s[..k] ==> 1 <= Atoi(Split(s[..k], '-')[0]) && Atoi(Split(s[..k], '-')[1]) <= 7
  {
    FirstItem(s, k);
    var first := DigitValue(s[0]);
    assert StartsItem(s, 0) && 1 <= first <= 7;
    if 3 <= k {
      var last := DigitValue(s[2]);
      DashedItem(s[..k]);
      assert forall d :: Covers(s, 0, d) <==> first <= d <= last;
      assert ItemDays(s[..k]) == Numerals(first, last);
      CoveredNumerals(s, first, last);
    } else {
      assert s[..k] == [s[0]] == Digit(first);
      assert forall d :: Covers(s, 0, d) <==> d == first;
      assert ItemDays(s[..k]) == {Itoa(first)} == Numerals(first, first);
      CoveredNumerals(s, first, first);
    }
  }

  lemma RestAccepted(s: string, k: nat)
    requires Accepted(s) && k < |s| && k % 2 == 1
    ensures Accepted(s[k + 1..])
  {}

  /** The item at i of the rest is the item at k + 1 + i of the whole. */
  lemma ItemShifts(s: string, k: nat, i: int, day: int)
    requires Accepted(s) && k < |s| && k % 2 == 1 && s[k] == ',' && Accepted(s[k + 1..])
    requires 0 <= i
    ensures StartsItem(s[k + 1..], i) <==> StartsItem(s, k + 1 + i)
    ensures StartsItem(s, k + 1 + i) ==> (Covers(s[k + 1..], i, day) <==> Covers(s, k + 1 + i, day))
  {}

  /** The list means its first item or what the rest means. */
  lemma ListedSplits(s: string, k: nat, day: int)
    requires Accepted(s) && k < |s| && k == IndexOf(s, ',') && k % 2 == 1 && Accepted(s[k + 1..])
    ensures Listed(s, day) <==> Covers(s, 0, day) || Listed(s[k + 1..], day)
  {
    assert StartsItem(s, 0);
    if Listed(s[k + 1..], day) {
      var i :| StartsItem(s[k + 1..], i) && Covers(s[k + 1..], i, day);
      ItemShifts(s, k, i, day);
    }
    if Listed(s, day) {
      var i :| StartsItem(s, i) && Covers(s, i, day);
      if i != 0 {
        assert forall m :: 0 <= m < k ==> s[m] == s[..k][m];
        ItemShifts(s, k, i - k - 1, day);
      }
    }
  }

  lemma OneItem(s: string, day: int)
    requires Accepted(s) && IndexOf(s, ',') == |s|
    ensures Listed(s, day) <==> Covers(s, 0, day)
  {}

  /** Splitting at the commas and reading each item yields exactly the days the list means. */
  lemma {:induction false} ItemsAreListed(s: string)
    requires Accepted(s)
    ensures UnionDays(Split(s, ',')) == set d | 1 <= d <= 7 && Listed(s, d) :: Itoa(d)
    ensures forall item :: item in Split(s, ',') && '-' in item ==>
              |Split(item, '-')| >= 2 && 1 <= Atoi(Split(item, '-')[0]) && Atoi(Split(item, '-')[1]) <= 7
    decreases |s|
  {
    var k := IndexOf(s, ',');
    FirstItemDays(s, k);
    if k == |s| {
      forall d {
        OneItem(s, d);
      }
      assert s[..k] == s;
      assert Split(s, ',') == [s];
      assert UnionDays([s]) == ItemDays(s) + UnionDays([]);
    } else {
      var rest := s[k + 1..];
      RestAccepted(s, k);
      forall d {
        ListedSplits(s, k, d);
      }
      ItemsAreListed(rest);
      assert Split(s, ',')[1..] == Split(rest, ',');
      assert UnionDays(Split(s, ',')) == ItemDays(s[..k]) + UnionDays(Split(rest, ','));
    }
  }

  lemma {:induction false} UnionAppend(items: seq<string>, item: string)
    ensures UnionDays(items + [item]) == UnionDays(items) + ItemDays(item)
  {
    if items == [] {
      assert [item][1..] == [];
    } else {
      UnionAppend(items[1..], item);
      assert (items + [item])[1..] == items[1..] + [item];
    }
  }

  lemma NextNumeral(first: nat, i: nat)
    requires first <= i
    ensures Numerals(first, i) == Numerals(first, i - 1) + {Itoa(i)}
  {}

  /** The loop over a range; a reversed range adds nothing. */
  method AddRange(before: set<string>, first: int, last: int) returns (days: set<string>)
    requires 0 <= first && last < MAX_INT
    ensures days == before + Numerals(first, last)
  {
    days := before;
    var i := first;
    while i <= last
      invariant first <= i && (i <= last + 1 || i == first)
      invariant days == before + Numerals(first, i - 1)
    {
      NextNumeral(first, i);
      days := days + {Itoa(i)};
      i := i + 1;
    }
  }

  /** The item names the number: by itself, or between the first two numbers of a dashed item. */
  predicate Names(item: string, d: nat)
  {
    if '-' in item then
      |Split(item, '-')| >= 2 && Atoi(Split(item, '-')[0]) <= d <= Atoi(Split(item, '-')[1])
    else item == Itoa(d)
  }

  /** A range that ends at the largest integer, over which the loop of the source never ends. */
  predicate Endless(item: string)
  {
    '-' in item && |Split(item, '-')| >= 2 && Atoi(Split(item, '-')[1]) == MAX_INT
  }

  /** Every dashed item has two numbers to read, and the first is not negative. */
  lemma DashHasParts(item: string)
    requires '-' in item
    ensures |Split(item, '-')| >= 2 && 0 <= Atoi(Split(item, '-')[0])
    ensures Atoi(Split(item, '-')[1]) <= MAX_INT
  {
    SplitCounts(item, '-');
    SplitJoins(item, '-');
    AtoiUnsigned(Split(item, '-')[0]);
  }

  lemma ItemNames(item: string, d: nat)
    ensures Itoa(d) in ItemDays(item) <==> Names(item, d)
  {
    if '-' in item {
      DashHasParts(item);
      if Itoa(d) in ItemDays(item) {
        var n: nat :| Atoi(Split(item, '-')[0]) <= n <= Atoi(Split(item, '-')[1]) && Itoa(n) == Itoa(d);
        ItoaReads(n);
        ItoaReads(d);
      }
    }
  }

  lemma {:induction false} ItemsName(items: seq<string>, d: nat)
    ensures Itoa(d) in UnionDays(items) <==> exists k :: 0 <= k < |items| && Names(items[k], d)
  {
    if items != [] {
      ItemNames(items[0], d);
      ItemsName(items[1..], d);
      assert forall k :: 1 <= k < |items| ==> items[k] == items[1..][k - 1];
    }
  }

  /** A range by the first two numbers of a dashed item, or the item itself. */
  method AddItem(before: set<string>, item: string) returns (days: set<string>)
    requires !Endless(item)
    ensures days == before + ItemDays(item)
  {
    if '-' in item {
      DashHasParts(item);
      var parts := Split(item, '-');
      days := AddRange(before, Atoi(parts[0]), Atoi(parts[1]));
    } else {
      days := before + {item};
    }
  }

  lemma NoEndlessDay(s: string)
    requires s == "*" || Accepted(s)
    ensures forall k :: 0 <= k < |Split(s, ',')| ==> !Endless(Split(s, ',')[k])
  {
    if s == "*" {
      assert Split(s, ',') == [s];
    } else {
      ItemsAreListed(s);
    }
    forall k | 0 <= k < |Split(s, ',')|
      ensures !Endless(Split(s, ',')[k])
    {
      assert Split(s, ',')[k] in Split(s, ',');
    }
  }

  /** The numerals of the included days: for every string without an endless range, a number is in
      the set exactly when an item names it; for a list the webhook accepts, the set holds exactly
      the days the list means. */
  method ExtractWeekdays(weekdays: string) returns (days: set<string>)
    requires forall k :: 0 <= k < |Split(weekdays, ',')| ==> !Endless(Split(weekdays, ',')[k])
    ensures weekdays == "*" ==> days == Numerals(1, 7)
    ensures weekdays != "*" ==> forall d: nat ::
              Itoa(d) in days <==> exists k :: 0 <= k < |Split(weekdays, ',')| && Names(Split(weekdays, ',')[k], d)
    ensures Accepted(weekdays) ==> days == set d | 1 <= d <= 7 && Listed(weekdays, d) :: Itoa(d)
  {
    if weekdays == "*" {
      days := AddRange({}, 1, 7);
      return;
    }
    days := {};
    var items := Split(weekdays, ',');
    for n := 0 to |items|
      invariant days == UnionDays(items[..n])
    {
      assert items[..n + 1] == items[..n] + [items[n]];
      UnionAppend(items[..n], items[n]);
      days := AddItem(days, items[n]);
    }
    assert items[..|items|] == items;
    forall d: nat {
      ItemsName(items, d);
    }
    if Accepted(weekdays) {
      ItemsAreListed(weekdays);
    }
  }

  /** The weekday default is no list the webhook accepts. */
  lemma StarIsRefused()
    ensures !Accepted("*")
  {
    assert "*"[0] == '*';
  }

  /** Monday is "1" and Sunday is "7"; in Go Sunday is 0. */
  function GoWeekday(numeral: string): Option<int>
  {
    if |numeral| == 1 && '1' <= numeral[0] <= '7' then Some(DigitValue(numeral[0]) % 7) else None
  }

  /** The map is read in any order; the list holds every matching weekday once and nothing else. */
  method MapWeekdays(days: set<string>) returns (converted: seq<int>)
    ensures forall w :: w in converted <==> exists numeral :: numeral in days && GoWeekday(numeral) == Some(w)
    ensures forall i, j :: 0 <= i < j < |converted| ==> converted[i] != converted[j]
  {
    converted := [];
    var remaining := days;
    while remaining != {}
      invariant remaining <= days
      invariant forall w :: w in converted <==>
                  exists numeral :: numeral in days && numeral !in remaining && GoWeekday(numeral) == Some(w)
      invariant forall i, j :: 0 <= i < j < |converted| ==> converted[i] != converted[j]
      decreases remaining
    {
      var numeral :| numeral in remaining;
      match GoWeekday(numeral) {
        case Some(w) =>
          forall other | GoWeekday(other) == Some(w)
            ensures other == numeral
          {
            assert other[0] == numeral[0];
          }
          assert w !in converted;
          converted := converted + [w];
        case None =>
      }
      remaining := remaining - {numeral};
    }
  }

  /** End to end: Go's weekday w is in the list exactly when the accepted string means it. */
  lemma ListedWeekdays(s: string, days: set<string>, w: int)
    requires Accepted(s) && 0 <= w < 7
    requires days == set d | 1 <= d <= 7 && Listed(s, d) :: Itoa(d)
    ensures (exists numeral :: numeral in days && GoWeekday(numeral) == Some(w))
            <==> Listed(s, if w == 0 then 7 else w)
  {
    var d := if w == 0 then 7 else w;
    if Listed(s, d) {
      assert Itoa(d) in days && GoWeekday(Itoa(d)) == Some(w);
    }
  }
}
