/** The string operations the schedule parsers call. */
module Text {
  predicate IsDigit(c: char) { '0' <= c <= '9' }

  function DigitValue(c: char): (d: int)
    requires IsDigit(c)
    ensures 0 <= d <= 9
  {
    c as int - '0' as int
  }

  predicate AllDigits(s: string) { forall i :: 0 <= i < |s| ==> IsDigit(s[i]) }

  function Decimal(s: string): nat
    requires AllDigits(s)
  {
    if s == [] then 0
    else
      assert IsDigit(s[|s| - 1]);
      10 * Decimal(s[..|s| - 1]) + DigitValue(s[|s| - 1])
  }

  const MAX_INT := 0x7FFF_FFFF_FFFF_FFFF

  predicate Signed(s: string) { s != [] && (s[0] == '+' || s[0] == '-') }

  /** The number a string is read as when errors are ignored: 0 when it is not a numeral with an
      optional sign, and the nearest 64-bit number when it is too large. */
  function Atoi(s: string): int
  {
    var digits := if Signed(s) then s[1..] else s;
    if digits == [] || !AllDigits(digits) then 0
    else
      var value: int := Decimal(digits);
      if s[0] == '-' then if MAX_INT + 1 < value then -MAX_INT - 1 else -value
      else if MAX_INT < value then MAX_INT
      else value
  }

  lemma AtoiUnsigned(s: string)
    requires '-' !in s
    ensures 0 <= Atoi(s)
  {}

  lemma AtoiDigit(s: string)
    requires |s| == 1 && IsDigit(s[0])
    ensures Atoi(s) == DigitValue(s[0])
  {
    assert s[..0] == [];
    assert Decimal(s) == 10 * Decimal([]) + DigitValue(s[0]);
  }

  function Digit(d: int): (s: string)
    requires 0 <= d <= 9
    ensures AllDigits(s)
  {
    [('0' as int + d) as char]
  }

  /** Writing a number in decimal. */
  function Itoa(n: nat): (s: string)
    ensures s != [] && AllDigits(s)
  {
    if n <= 9 then Digit(n) else Itoa(n / 10) + Digit(n % 10)
  }

  /** Reading a written number gives the number, so no two numbers are written alike. */
  lemma {:induction false} ItoaReads(n: nat)
    ensures Decimal(Itoa(n)) == n
  {
    var s := Itoa(n);
    if n <= 9 {
      assert s[..0] == [];
    } else {
      ItoaReads(n / 10);
      assert s[..|s| - 1] == Itoa(n / 10) && s[|s| - 1] == Digit(n % 10)[0];
    }
  }

  function IndexOf(s: string, c: char): (i: nat)
    ensures i <= |s| && c !in s[..i] && (i < |s| ==> s[i] == c)
  {
    if s == [] || s[0] == c then 0 else 1 + IndexOf(s[1..], c)
  }

  function Split(s: string, sep: char): (parts: seq<string>)
    ensures parts != []
  {
    var i := IndexOf(s, sep);
    if i == |s| then [s] else [s[..i]] + Split(s[i + 1..], sep)
  }

  function Join(parts: seq<string>, sep: char): string
    requires parts != []
  {
    if |parts| == 1 then parts[0] else parts[0] + [sep] + Join(parts[1..], sep)
  }

  /** Splitting loses nothing, and no part holds the separator. */
  lemma {:induction false} SplitJoins(s: string, sep: char)
    ensures Join(Split(s, sep), sep) == s
    ensures forall part :: part in Split(s, sep) ==> sep !in part
  {
    var i := IndexOf(s, sep);
    if i < |s| {
      SplitJoins(s[i + 1..], sep);
      assert Split(s, sep)[1..] == Split(s[i + 1..], sep);
      assert s == s[..i] + [sep] + s[i + 1..];
    } else {
      assert s == s[..i];
    }
  }

  /** One part more than there are separators. */
  lemma {:induction false} SplitCounts(s: string, sep: char)
    ensures |Split(s, sep)| == multiset(s)[sep] + 1
  {
    var i := IndexOf(s, sep);
    if i < |s| {
      SplitCounts(s[i + 1..], sep);
      assert s == s[..i] + [sep] + s[i + 1..];
    }
  }

  lemma IndexIs(s: string, c: char, i: nat)
    requires i <= |s| && (forall k :: 0 <= k < i ==> s[k] != c) && (i < |s| ==> s[i] == c)
    ensures IndexOf(s, c) == i
  {}
}
