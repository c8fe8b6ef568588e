/** Strings as std::string and std::stringstream treat them: searching, and printing numbers. */
module Text {

  import opened Wrappers

  const NUL := '\0'
  const DIGITS := "0123456789"

  predicate IsDigit(c: char) { c in DIGITS }

  /** std::to_string and operator<< on an unsigned number. */
  function Decimal(n: nat): (s: string)
    ensures |s| > 0
    ensures forall c | c in s :: IsDigit(c)
  {
    if n < 10 then [DIGITS[n]] else Decimal(n / 10) + [DIGITS[n % 10]]
  }

  function DigitValue(c: char): nat
    requires IsDigit(c)
  {
    if c == '0' then 0 else if c == '1' then 1 else if c == '2' then 2 else if c == '3' then 3
    else if c == '4' then 4 else if c == '5' then 5 else if c == '6' then 6 else if c == '7' then 7
    else if c == '8' then 8 else 9
  }

  /** The number a string of digits denotes. */
  function Value(s: string): nat
    requires forall c | c in s :: IsDigit(c)
  {
    if s == [] then 0 else Value(s[..|s| - 1]) * 10 + DigitValue(s[|s| - 1])
  }

  lemma DigitOf(d: nat)
    requires d < 10
    ensures IsDigit(DIGITS[d]) && DigitValue(DIGITS[d]) == d
  {
  }

  lemma {:induction false} ValueOfDecimal(n: nat)
    ensures Value(Decimal(n)) == n
  {
    if n < 10 {
      DigitOf(n);
      assert Decimal(n)[..0] == [];
    } else {
      DigitOf(n % 10);
      ValueOfDecimal(n / 10);
      assert Decimal(n)[..|Decimal(n)| - 1] == Decimal(n / 10);
    }
  }

  lemma DecimalHasNoDot(n: nat)
    ensures '.' !in Decimal(n)
  {
    assert !IsDigit('.');
  }

  lemma DecimalInjective(m: nat, n: nat)
    requires Decimal(m) == Decimal(n)
    ensures m == n
  {
    ValueOfDecimal(m);
    ValueOfDecimal(n);
  }

  /** The longest prefix of digits, read as a number, and what follows it. */
  function ReadNumber(t: string): (r: (nat, string))
  {
    var k := DigitRun(t);
    (Value(t[..k]), t[k..])
  }

  function DigitRun(t: string): (k: nat)
    ensures k <= |t|
    ensures forall i | 0 <= i < k :: IsDigit(t[i])
    ensures k < |t| ==> !IsDigit(t[k])
  {
    if t == [] || !IsDigit(t[0]) then 0 else 1 + DigitRun(t[1..])
  }

  lemma DigitRunIs(t: string, k: nat)
    requires k <= |t|
    requires forall i | 0 <= i < k :: IsDigit(t[i])
    requires k < |t| ==> !IsDigit(t[k])
    ensures DigitRun(t) == k
  {
  }

  lemma ReadNumberBack(n: nat, rest: string)
    requires rest == [] || !IsDigit(rest[0])
    ensures ReadNumber(Decimal(n) + rest) == (n, rest)
  {
    var d, t := Decimal(n), Decimal(n) + rest;
    DigitRunIs(t, |d|);
    assert t[..|d|] == d && t[|d|..] == rest;
    ValueOfDecimal(n);
  }

  predicate EndsWith(s: string, t: string)
  {
    |t| <= |s| && s[|s| - |t|..] == t
  }

  predicate StartsWith(s: string, t: string)
  {
    |t| <= |s| && s[..|t|] == t
  }

  predicate OccursAt(s: string, t: string, i: int)
  {
    0 <= i <= |s| - |t| && s[i..i + |t|] == t
  }

  /** std::string::find(t, 0) != npos. */
  ghost predicate Contains(s: string, t: string)
  {
    exists i :: OccursAt(s, t, i)
  }

  /** std::string::rfind(t), with -1 for npos: the search goes down from `from`. */
  function LastOccurrenceFrom(s: string, t: string, from: int): (r: int)
    requires from <= |s| - |t|
    ensures -1 <= r
    ensures r == -1 ==> forall i | 0 <= i <= from :: !OccursAt(s, t, i)
    ensures r >= 0 ==> r <= from && OccursAt(s, t, r) && forall i | r < i <= from :: !OccursAt(s, t, i)
    decreases from + 1
  {
    if from < 0 then -1
    else if s[from..from + |t|] == t then from
    else LastOccurrenceFrom(s, t, from - 1)
  }

  function LastOccurrence(s: string, t: string): (r: int)
    ensures -1 <= r
    ensures r == -1 ==> forall i :: !OccursAt(s, t, i)
    ensures r >= 0 ==> OccursAt(s, t, r) && forall i | r < i :: !OccursAt(s, t, i)
  {
    LastOccurrenceFrom(s, t, |s| - |t|)
  }

  /** std::string::find_last_of(c), with -1 for npos. */
  function LastIndexOf(s: string, c: char): (r: int)
    ensures -1 <= r < |s|
    ensures r >= 0 ==> s[r] == c
    ensures forall i | r < i < |s| :: s[i] != c
  {
    if s == [] then -1
    else if s[|s| - 1] == c then |s| - 1
    else LastIndexOf(s[..|s| - 1], c)
  }

  lemma LastIndexIs(s: string, c: char, k: int)
    requires 0 <= k < |s| && s[k] == c
    requires forall i | k < i < |s| :: s[i] != c
    ensures LastIndexOf(s, c) == k
  {
  }

  lemma {:induction false} LastIndexInto(p: string, c: char, d: string)
    requires c !in d
    ensures LastIndexOf(p + [c] + d, c) == |p|
  {
    var t := p + [c] + d;
    if d == [] {
      assert t == p + [c];
    } else {
      assert t[..|t| - 1] == p + [c] + d[..|d| - 1];
      LastIndexInto(p, c, d[..|d| - 1]);
      assert d[|d| - 1] in d;
    }
  }
}
