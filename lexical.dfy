/** Characters, runs of characters and the decimal numerals the title patterns are made of. */
module Lexical {

  /** A character of the class `\d` of a JavaScript regular expression without the `u` flag. */
  predicate IsDigit(c: char) {
    '0' <= c <= '9'
  }

  predicate AllDigits(s: string) {
    forall k | 0 <= k < |s| :: IsDigit(s[k])
  }

  function DigitValue(c: char): (d: nat)
    requires IsDigit(c)
    ensures d < 10
  {
    c as int - '0' as int
  }

  function DigitChar(d: nat): (c: char)
    requires d < 10
    ensures IsDigit(c) && DigitValue(c) == d
  {
    ('0' as int + d) as char
  }

  /** The first index at or after `i` whose character does not satisfy `p`, or `|s|`. */
  function SkipWhile(s: string, i: nat, p: char -> bool): (j: nat)
    requires i <= |s|
    ensures i <= j <= |s|
    ensures j < |s| ==> !p(s[j])
    decreases |s| - i
  {
    if i == |s| || !p(s[i]) then i else SkipWhile(s, i + 1, p)
  }

  /** Every character `SkipWhile` passes over satisfies `p`. */
  lemma {:induction false} SkipWhileRun(s: string, i: nat, p: char -> bool)
    requires i <= |s|
    ensures forall k | i <= k < SkipWhile(s, i, p) :: p(s[k])
    decreases |s| - i
  {
    if i < |s| && p(s[i]) {
      SkipWhileRun(s, i + 1, p);
    }
  }

  /** A run of `p` that reaches `e`, where the string ends or `p` fails, is where `SkipWhile` stops. */
  lemma {:induction false} SkipWhileStops(s: string, i: nat, p: char -> bool, e: nat)
    requires i <= e <= |s|
    requires forall k | i <= k < e :: p(s[k])
    requires e == |s| || !p(s[e])
    ensures SkipWhile(s, i, p) == e
    decreases e - i
  {
    if i < e {
      SkipWhileStops(s, i + 1, p, e);
    }
  }

  function Pow10(k: nat): (r: nat)
    ensures r >= 1
  {
    if k == 0 then 1 else 10 * Pow10(k - 1)
  }

  /** The integer a run of decimal digits denotes, most significant digit first ("" denotes 0). */
  function DigitsValue(ds: string): (n: nat)
    requires AllDigits(ds)
    ensures n < Pow10(|ds|)
  {
    if ds == [] then 0 else DigitsValue(ds[..|ds| - 1]) * 10 + DigitValue(ds[|ds| - 1])
  }

  /** The value of the digits written after a decimal point: "25" denotes 0.25. */
  function FractionValue(ds: string): (r: real)
    requires AllDigits(ds)
    ensures 0.0 <= r < 1.0
  {
    if ds == [] then 0.0 else (DigitValue(ds[0]) as real + FractionValue(ds[1..])) / 10.0
  }

  /**
   * The decimal numeral of `n` without leading zeros, as JavaScript writes an integral number
   * in a template literal.
   */
  function NatToDecimal(n: nat): (s: string)
    ensures |s| > 0 && AllDigits(s)
    ensures DigitsValue(s) == n
    ensures |s| > 1 ==> s[0] != '0'
  {
    if n < 10 then [DigitChar(n)]
    else
      var prefix := NatToDecimal(n / 10);
      var s := prefix + [DigitChar(n % 10)];
      assert s[..|s| - 1] == prefix;
      s
  }

  /** A canonical numeral is read back as the number it was written from. */
  lemma {:induction false} DecimalRoundTrip(s: string)
    requires |s| > 0 && AllDigits(s)
    requires |s| > 1 ==> s[0] != '0'
    ensures NatToDecimal(DigitsValue(s)) == s
  {
    var n := DigitsValue(s);
    var prefix := s[..|s| - 1];
    if |s| == 1 {
      assert n == DigitValue(s[0]);
      assert DigitChar(n) == s[0];
    } else {
      assert prefix[0] == s[0];
      LeadingDigitBound(prefix);
      DecimalRoundTrip(prefix);
      assert n / 10 == DigitsValue(prefix);
      assert n % 10 == DigitValue(s[|s| - 1]);
      assert s == prefix + [s[|s| - 1]];
    }
  }

  /** A numeral with no leading zero and at least two digits denotes at least 10. */
  lemma {:induction false} LeadingDigitBound(s: string)
    requires |s| > 0 && AllDigits(s) && s[0] != '0'
    ensures DigitsValue(s) >= Pow10(|s| - 1)
  {
    if |s| > 1 {
      var prefix := s[..|s| - 1];
      assert prefix[0] == s[0];
      LeadingDigitBound(prefix);
    } else {
      assert DigitValue(s[0]) >= 1;
    }
  }
}
