/** The value of a number token, as `Decimal(token)` reads it: exact, with no
    rounding (the context precision does not apply to construction). */
module Numerals {
  import opened Lexer

  function DigitValue(c: char): nat
    requires IsDigit(c)
  {
    c as int - '0' as int
  }

  function Digit(d: nat): (c: char)
    requires d < 10
    ensures IsDigit(c) && DigitValue(c) == d
  {
    ('0' as int + d) as char
  }

  predicate AllDigits(s: string) {
    forall k :: 0 <= k < |s| ==> IsDigit(s[k])
  }

  /** The value of a digit string, most significant digit first. */
  function DigitsValue(s: string): nat
    requires AllDigits(s)
  {
    if s == [] then 0 else 10 * DigitsValue(s[..|s| - 1]) + DigitValue(s[|s| - 1])
  }

  function Pow10(n: nat): (p: nat)
    ensures p >= 1
  {
    if n == 0 then 1 else 10 * Pow10(n - 1)
  }

  /** The value of a numeral `digits` or `digits.digits`. Defined on every
      string (only its leading number shape is read), so that a parser need
      not re-check what the tokenizer guarantees. */
  function LiteralValue(t: string): (r: real)
    ensures r >= 0.0
  {
    var k := DigitsEnd(t, 0);
    DigitsEndDigits(t, 0);
    assert AllDigits(t[..k]);
    var whole := DigitsValue(t[..k]) as real;
    if k + 1 < |t| && t[k] == '.' then
      var e := DigitsEnd(t, k + 1);
      DigitsEndDigits(t, k + 1);
      assert AllDigits(t[k + 1..e]);
      whole + DigitsValue(t[k + 1..e]) as real / Pow10(e - k - 1) as real
    else
      whole
  }

  /** The shortest decimal numeral of a natural number. */
  function NatText(n: nat): (t: string)
    ensures |t| > 0 && AllDigits(t)
    ensures DigitsValue(t) == n
  {
    if n < 10 then
      [Digit(n)]
    else
      var t := NatText(n / 10) + [Digit(n % 10)];
      assert t[..|t| - 1] == NatText(n / 10);
      t
  }

  lemma {:induction false} AllDigitsEnd(t: string, i: nat)
    requires AllDigits(t) && i <= |t|
    ensures DigitsEnd(t, i) == |t|
    decreases |t| - i
  {
    if i < |t| {
      AllDigitsEnd(t, i + 1);
    }
  }

  /** A natural number's numeral is a number token whose value is the number. */
  lemma NatTextValue(n: nat)
    ensures IsNumeral(NatText(n))
    ensures LiteralValue(NatText(n)) == n as real
  {
    var t := NatText(n);
    AllDigitsEnd(t, 0);
    assert t[..|t|] == t;
  }

  /** A one-digit numeral is a number token that reads as its digit. */
  lemma DigitText(d: nat)
    requires d < 10
    ensures IsNumeral([Digit(d)]) && LiteralValue([Digit(d)]) == d as real
  {
    NatTextValue(d);
  }

  /** A fractional numeral reads as its digits scaled down by the length of the fraction. */
  lemma FractionValue(whole: string, frac: string)
    requires |whole| > 0 && AllDigits(whole) && |frac| > 0 && AllDigits(frac)
    ensures IsNumeral(whole + "." + frac)
    ensures LiteralValue(whole + "." + frac)
         == DigitsValue(whole) as real + DigitsValue(frac) as real / Pow10(|frac|) as real
  {
    var t := whole + "." + frac;
    var k := |whole|;
    FractionShape(whole, frac);
    var w, f, p := DigitsValue(whole) as real, DigitsValue(frac) as real, Pow10(|frac|) as real;
    assert |t| - k - 1 == |frac|;
    assert LiteralValue(t) == w + f / p;
  }

  lemma FractionShape(whole: string, frac: string)
    requires |whole| > 0 && AllDigits(whole) && |frac| > 0 && AllDigits(frac)
    ensures var t := whole + "." + frac;
      && t[..|whole|] == whole && t[|whole|] == '.' && t[|whole| + 1..|t|] == frac
      && DigitsEnd(t, 0) == |whole| && DigitsEnd(t, |whole| + 1) == |t|
  {
    var t := whole + "." + frac;
    var k := |whole|;
    assert t[..k] == whole && t[k] == '.' && t[k + 1..|t|] == frac;
    assert DigitsEnd(t, 0) == k by {
      DigitsEndSlice(t, 0, k, 0);
      AllDigitsEnd(whole, 0);
      DigitsEndBound(t, 0, k);
    }
    assert DigitsEnd(t, k + 1) == |t| by {
      DigitsEndSlice(t, k + 1, |t|, k + 1);
      AllDigitsEnd(frac, 0);
    }
  }
}
