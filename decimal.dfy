/** Decimal rendering of the worker counts, as Python's `str.format` and
    f-strings render a non-negative `int`, together with the digit parsers
    that read such a rendering back. */
module Decimal {
  import opened Wrappers

  predicate IsDigit(c: char) {
    '0' <= c <= '9'
  }

  predicate AllDigits(s: string) {
    forall i :: 0 <= i < |s| ==> IsDigit(s[i])
  }

  function DigitValue(c: char): (d: nat)
    requires IsDigit(c)
    ensures d < 10
  {
    c as int - '0' as int
  }

  function DigitChar(d: nat): (c: char)
    requires d < 10
    ensures IsDigit(c) && DigitValue(c) == d
  {
    ('0' as int + d) as char
  }

  /** The decimal rendering of `n`: at least one digit, only digits, and no
      leading zero unless `n` is zero itself. */
  function NatToString(n: nat): (s: string)
    ensures |s| >= 1 && AllDigits(s)
    ensures |s| > 1 ==> s[0] != '0'
    ensures n < 10 <==> |s| == 1
  {
    if n < 10 then [DigitChar(n)] else NatToString(n / 10) + [DigitChar(n % 10)]
  }

  /** The number a digit string denotes, most significant digit first. */
  function DigitsValue(s: string): nat
    requires AllDigits(s)
  {
    if s == [] then 0 else DigitsValue(s[..|s| - 1]) * 10 + DigitValue(s[|s| - 1])
  }

  /** Reading a rendering back gives the number that was rendered. */
  lemma {:induction false} NatToStringRoundTrip(n: nat)
    ensures DigitsValue(NatToString(n)) == n
  {
    if n >= 10 {
      NatToStringRoundTrip(n / 10);
      var s := NatToString(n);
      assert s[..|s| - 1] == NatToString(n / 10);
    }
  }

  /** Two numbers with the same rendering are equal. */
  lemma NatToStringInjective(m: nat, n: nat)
    requires NatToString(m) == NatToString(n)
    ensures m == n
  {
    NatToStringRoundTrip(m);
    NatToStringRoundTrip(n);
  }

  /** The length of the longest run of digits at the start of `s`. */
  function LeadingDigits(s: string): (k: nat)
    ensures k <= |s| && AllDigits(s[..k])
    ensures k < |s| ==> !IsDigit(s[k])
  {
    if s == [] || !IsDigit(s[0]) then 0 else 1 + LeadingDigits(s[1..])
  }

  /** The length of the longest run of digits at the end of `s`. */
  function TrailingDigits(s: string): (k: nat)
    ensures k <= |s| && AllDigits(s[|s| - k..])
    ensures k < |s| ==> !IsDigit(s[|s| - 1 - k])
  {
    if s == [] || !IsDigit(s[|s| - 1]) then 0 else 1 + TrailingDigits(s[..|s| - 1])
  }

  /** Reads the number written at the start of `s` and returns it with the
      text that follows it; `None` when `s` does not start with a digit. */
  function ParseLeadingNat(s: string): Option<(nat, string)> {
    var k := LeadingDigits(s);
    if k == 0 then None else Some((DigitsValue(s[..k]), s[k..]))
  }

  /** Reads the number written at the end of `s` and returns the text before
      it with the number; `None` when `s` does not end with a digit. */
  function ParseTrailingNat(s: string): Option<(string, nat)> {
    var k := TrailingDigits(s);
    if k == 0 then None else Some((s[..|s| - k], DigitsValue(s[|s| - k..])))
  }

  /** The digit run at the start of digits-then-non-digit is the digits. */
  lemma {:induction false} LeadingDigitsOfDigits(d: string, rest: string)
    requires AllDigits(d)
    requires rest == [] || !IsDigit(rest[0])
    ensures LeadingDigits(d + rest) == |d|
  {
    if d != [] {
      assert (d + rest)[1..] == d[1..] + rest;
      LeadingDigitsOfDigits(d[1..], rest);
    }
  }

  /** The digit run at the end of non-digit-then-digits is the digits. */
  lemma {:induction false} TrailingDigitsOfDigits(before: string, d: string)
    requires AllDigits(d)
    requires before == [] || !IsDigit(before[|before| - 1])
    ensures TrailingDigits(before + d) == |d|
  {
    if d != [] {
      assert (before + d)[..|before + d| - 1] == before + d[..|d| - 1];
      TrailingDigitsOfDigits(before, d[..|d| - 1]);
    }
  }

  /** A rendering followed by text that does not start with a digit is read
      back as exactly that number and that text. */
  lemma ParseLeadingNatOfRendering(n: nat, rest: string)
    requires rest == [] || !IsDigit(rest[0])
    ensures ParseLeadingNat(NatToString(n) + rest) == Some((n, rest))
  {
    var d, s := NatToString(n), NatToString(n) + rest;
    LeadingDigitsOfDigits(d, rest);
    assert s[..|d|] == d && s[|d|..] == rest;
    NatToStringRoundTrip(n);
  }

  /** A rendering preceded by text that does not end with a digit is read
      back as exactly that text and that number. */
  lemma ParseTrailingNatOfRendering(before: string, n: nat)
    requires before == [] || !IsDigit(before[|before| - 1])
    ensures ParseTrailingNat(before + NatToString(n)) == Some((before, n))
  {
    var d, s := NatToString(n), before + NatToString(n);
    TrailingDigitsOfDigits(before, d);
    assert s[|s| - |d|..] == d && s[..|s| - |d|] == before;
    NatToStringRoundTrip(n);
  }
}
