/** Decimal digits: how an integer is rendered inside a JavaScript template
    literal, how `parseInt` reads a run of digits, and searching a string for
    a character. */
module Decimal {

  predicate IsDigit(c: char) {
    '0' <= c <= '9'
  }

  predicate AllDigits(s: string) {
    forall i :: 0 <= i < |s| ==> IsDigit(s[i])
  }

  function DigitChar(d: nat): (c: char)
    requires d < 10
    ensures IsDigit(c)
  {
    ('0' as int + d) as char
  }

  function DigitValue(c: char): (d: nat)
    requires IsDigit(c)
    ensures d < 10
  {
    (c as int) - ('0' as int)
  }

  /** The decimal text of `n`, without leading zeros ("0" for zero). */
  function Show(n: nat): (s: string)
    ensures |s| > 0 && AllDigits(s)
    ensures n < 10 ==> |s| == 1
    ensures |s| > 1 ==> s[0] != '0'
  {
    if n < 10 then [DigitChar(n)] else Show(n / 10) + [DigitChar(n % 10)]
  }

  /** The number the digits `s[i..j]` denote (leading zeros allowed); only
      ever applied to runs of digits. */
  function ValueOf(s: string, i: nat, j: nat): (r: nat)
    requires i <= j <= |s|
    decreases j - i
  {
    if i == j then 0
    else ValueOf(s, i, j - 1) * 10 + (if IsDigit(s[j - 1]) then DigitValue(s[j - 1]) else 0)
  }

  /** The number a whole string of digits denotes. */
  function Value(d: string): (r: nat) {
    ValueOf(d, 0, |d|)
  }

  /** `ValueOf` depends only on the characters between its bounds. */
  lemma {:induction false} ValueOfShift(s: string, i: nat, j: nat, t: string, k: nat)
    requires i <= j <= |s| && k + (j - i) <= |t|
    requires forall x :: i <= x < j ==> s[x] == t[k + x - i]
    ensures ValueOf(s, i, j) == ValueOf(t, k, k + (j - i))
    decreases j - i
  {
    if i < j {
      ValueOfShift(s, i, j - 1, t, k);
    }
  }

  /** Reading back the rendering of a number gives that number. */
  lemma {:induction false} ValueOfShow(n: nat)
    ensures Value(Show(n)) == n
  {
    if n >= 10 {
      var s, p := Show(n), Show(n / 10);
      assert s == p + [DigitChar(n % 10)];
      ValueOfShift(s, 0, |p|, p, 0);
      ValueOfShow(n / 10);
    }
  }

  /** Two numbers with the same rendering are equal. */
  lemma ShowInjective(a: nat, b: nat)
    requires Show(a) == Show(b)
    ensures a == b
  {
    ValueOfShow(a);
    ValueOfShow(b);
  }

  /** The length of the longest run of digits that starts at index `i`. */
  function DigitRun(s: string, i: nat): (k: nat)
    requires i <= |s|
    ensures i + k <= |s|
    decreases |s| - i
  {
    if i < |s| && IsDigit(s[i]) then 1 + DigitRun(s, i + 1) else 0
  }

  /** The run is made of digits and stops at a non-digit or at the end. */
  lemma {:induction false} DigitRunIsMaximal(s: string, i: nat)
    requires i <= |s|
    ensures forall j :: i <= j < i + DigitRun(s, i) ==> IsDigit(s[j])
    ensures i + DigitRun(s, i) == |s| || !IsDigit(s[i + DigitRun(s, i)])
    decreases |s| - i
  {
    if i < |s| && IsDigit(s[i]) {
      DigitRunIsMaximal(s, i + 1);
    }
  }

  /** A run of `k` digits at `i` that is followed by a non-digit (or the end)
      is exactly what `DigitRun` finds there. */
  lemma {:induction false} DigitRunAt(s: string, i: nat, k: nat)
    requires i + k <= |s|
    requires forall j :: i <= j < i + k ==> IsDigit(s[j])
    requires i + k == |s| || !IsDigit(s[i + k])
    ensures DigitRun(s, i) == k
    decreases k
  {
    if k > 0 {
      DigitRunAt(s, i + 1, k - 1);
    }
  }

  /** Text placed in front does not change a run of digits. */
  lemma {:induction false} DigitRunShift(p: string, s: string, i: nat)
    requires i <= |s|
    ensures DigitRun(p + s, |p| + i) == DigitRun(s, i)
    decreases |s| - i
  {
    if i < |s| {
      assert (p + s)[|p| + i] == s[i];
      DigitRunShift(p, s, i + 1);
    }
  }

  /** When a digit string is followed by a non-digit, the split point is
      determined: equal concatenations have equal digit prefixes. */
  lemma DigitPrefixUnique(x1: string, r1: string, x2: string, r2: string)
    requires AllDigits(x1) && AllDigits(x2)
    requires r1 != [] && !IsDigit(r1[0])
    requires r2 != [] && !IsDigit(r2[0])
    requires x1 + r1 == x2 + r2
    ensures x1 == x2 && r1 == r2
  {
    var s := x1 + r1;
    assert s[|x1|] == r1[0] && s[|x2|] == r2[0];
    assert forall j :: 0 <= j < |x1| ==> s[j] == x1[j];
    assert forall j :: 0 <= j < |x2| ==> s[j] == x2[j];
    assert x1 == s[..|x1|] == x2;
  }

  /** The index of the first occurrence of `c` in `s`. */
  function IndexOf(s: string, c: char): (i: nat)
    requires c in s
    ensures i < |s| && s[i] == c && c !in s[..i]
  {
    if s[0] == c then 0
    else
      assert c in s[1..] by { assert s == [s[0]] + s[1..]; }
      var j := IndexOf(s[1..], c);
      assert s[..j + 1] == [s[0]] + s[1..][..j];
      j + 1
  }

  /** The first occurrence is found after a prefix that does not hold `c`. */
  lemma IndexOfAfter(p: string, c: char, rest: string)
    requires c !in p
    ensures IndexOf(p + [c] + rest, c) == |p|
  {
    var s := p + [c] + rest;
    var i := IndexOf(s, c);
    assert s[|p|] == c;
    assert forall j :: 0 <= j < |p| ==> s[j] == p[j];
    assert forall j :: 0 <= j < i ==> s[..i][j] == s[j];
  }
}
