/**
 * Decimal rendering of integers, as Python's `str(i)` and `"%d"` produce it,
 * together with the parser that undoes it.  The generator uses it for the
 * scenario name (`"%s-%dm%dl"`) and for the vehicle ids (`type + "_" + str(i)`).
 */
module Decimal {
  import opened Wrappers

  predicate IsDigit(c: char) {
    '0' <= c <= '9'
  }

  predicate AllDigits(s: string) {
    forall i :: 0 <= i < |s| ==> IsDigit(s[i])
  }

  function DigitChar(d: nat): (c: char)
    requires d < 10
    ensures IsDigit(c)
  {
    (('0' as int) + d) as char
  }

  function DigitValue(c: char): (d: nat)
    requires IsDigit(c)
    ensures d < 10 && DigitChar(d) == c
  {
    (c as int) - ('0' as int)
  }

  /** `str(n)` for a non-negative integer: no leading zero, no sign. */
  function NatToString(n: nat): (s: string)
    ensures |s| > 0 && AllDigits(s)
    ensures s[0] == '0' ==> n == 0
    decreases n
  {
    if n < 10 then [DigitChar(n)] else NatToString(n / 10) + [DigitChar(n % 10)]
  }

  /** `str(i)` / `"%d" % i` for any integer: a minus sign, then the digits of the magnitude. */
  function IntToString(i: int): (s: string)
    ensures i >= 0 ==> s == NatToString(i)
    ensures i < 0 ==> |s| > 1 && s[0] == '-' && AllDigits(s[1..]) && s[1] != '0' && ParseDigits(s[1..]) == -i
  {
    if i < 0 then ParseNatToString(-i); "-" + NatToString(-i) else NatToString(i)
  }

  /** Python's `int(x)` on a float: truncation toward zero, which is what `"%d"` applies to a float. */
  function TruncateToInt(x: real): (i: int)
    ensures 0.0 <= x ==> 0 <= i && i as real <= x < i as real + 1.0
    ensures x < 0.0 ==> i <= 0 && i as real - 1.0 < x <= i as real
  {
    if x >= 0.0 then x.Floor else -((-x).Floor)
  }

  /** The value of a string of decimal digits (the empty string reads as 0). */
  function ParseDigits(s: string): nat
    requires AllDigits(s)
  {
    if s == [] then 0 else ParseDigits(s[..|s| - 1]) * 10 + DigitValue(s[|s| - 1])
  }

  /** Reading back what `NatToString` wrote gives the number again. */
  lemma {:induction false} ParseNatToString(n: nat)
    ensures ParseDigits(NatToString(n)) == n
    decreases n
  {
    if n >= 10 {
      var s := NatToString(n);
      assert s[..|s| - 1] == NatToString(n / 10);
      ParseNatToString(n / 10);
    }
  }

  /** Distinct numbers are rendered as distinct strings. */
  lemma NatToStringInjective(a: nat, b: nat)
    ensures NatToString(a) == NatToString(b) <==> a == b
  {
    if NatToString(a) == NatToString(b) {
      ParseNatToString(a);
      ParseNatToString(b);
    }
  }

  /**
   * Splits `s` into the longest run of digits at its end and what precedes it;
   * the part before never ends in a digit.
   */
  function SplitTrailingDigits(s: string): (r: (string, string))
    ensures r.0 + r.1 == s
    ensures AllDigits(r.1)
    ensures r.0 == [] || !IsDigit(r.0[|r.0| - 1])
    decreases |s|
  {
    if |s| == 0 || !IsDigit(s[|s| - 1]) then (s, [])
    else
      var (p, d) := SplitTrailingDigits(s[..|s| - 1]);
      assert p + (d + [s[|s| - 1]]) == s[..|s| - 1] + [s[|s| - 1]];
      (p, d + [s[|s| - 1]])
  }

  /** Appending a run of digits to a string that does not end in one can be undone. */
  lemma {:induction false} SplitTrailingDigitsOf(p: string, d: string)
    requires AllDigits(d)
    requires p == [] || !IsDigit(p[|p| - 1])
    ensures SplitTrailingDigits(p + d) == (p, d)
    decreases |d|
  {
    var s := p + d;
    if d == [] {
      assert s == p;
    } else {
      assert s[..|s| - 1] == p + d[..|d| - 1];
      SplitTrailingDigitsOf(p, d[..|d| - 1]);
      assert d[..|d| - 1] + [d[|d| - 1]] == d;
    }
  }

  /** Reads `rest + [sep] + digits` from the end, giving `rest` and the digits' value. */
  function ParseNumberedSuffix(s: string, sep: char): Option<(string, nat)> {
    var (p, d) := SplitTrailingDigits(s);
    if d == [] || |p| == 0 || p[|p| - 1] != sep then None
    else Some((p[..|p| - 1], ParseDigits(d)))
  }

  /** A separator that is not a digit, followed by a rendered number, reads back as that number. */
  lemma ParseNumberedSuffixOf(rest: string, sep: char, n: nat)
    requires !IsDigit(sep)
    ensures ParseNumberedSuffix(rest + [sep] + NatToString(n), sep) == Some((rest, n))
  {
    var p := rest + [sep];
    SplitTrailingDigitsOf(p, NatToString(n));
    assert p[..|p| - 1] == rest;
    ParseNatToString(n);
  }
}
