/**
 * Amounts of money as exact reals, with the two conversions the pipeline
 * applies to them: `int(x)` (truncation toward zero) and `round(x, 2)`
 * (round half to even on the cent scale), plus the `:.2f` rendering used
 * in the calculation notes.
 */
module Money {
  import opened Wrappers
  import opened Text

  /** Python's `int(x)` on a number: truncation toward zero. */
  function Trunc(x: real): (r: int)
    ensures x >= 0.0 ==> r >= 0 && r as real <= x < r as real + 1.0
    ensures x < 0.0 ==> r <= 0 && r as real - 1.0 < x <= r as real
  {
    if x >= 0.0 then x.Floor else -((-x).Floor)
  }

  /** Round to the nearest integer, ties to the even neighbour. */
  function RoundHalfEven(x: real): (r: int)
    ensures -0.5 <= r as real - x <= 0.5
    ensures r as real - x == 0.5 || x - r as real == 0.5 ==> r % 2 == 0
  {
    var f := x.Floor;
    var frac := x - f as real;
    if frac < 0.5 then f
    else if frac > 0.5 then f + 1
    else if f % 2 == 0 then f
    else f + 1
  }

  /** `round(x, 2)` taken on the exact value: a whole number of cents. */
  function Round2(x: real): (r: real)
    ensures -0.005 <= r - x <= 0.005
    ensures (r * 100.0).Floor as real == r * 100.0
  {
    RoundHalfEven(x * 100.0) as real / 100.0
  }

  /**
   * Rounding a total and rounding its 80% and 20% shares separately differ
   * by at most one cent, whatever the total.
   */
  lemma SplitWithinCent(total: real)
    ensures -0.01 <= Round2(total) - (Round2(total * 0.8) + Round2(total * 0.2)) <= 0.01
  {
    var a := RoundHalfEven(total * 100.0);
    var b := RoundHalfEven(total * 0.8 * 100.0);
    var c := RoundHalfEven(total * 0.2 * 100.0);
    assert total * 0.8 * 100.0 + total * 0.2 * 100.0 == total * 100.0;
    var k := a - b - c;
    assert -1.5 <= k as real <= 1.5;
    assert -1 <= k <= 1;
    assert Round2(total) - (Round2(total * 0.8) + Round2(total * 0.2)) == k as real / 100.0;
  }

  /** `f"{x:.2f}"` on a non-negative amount. */
  function FormatUnsigned2(x: real): string
    requires x >= 0.0
  {
    var cents := RoundHalfEven(x * 100.0);
    assert cents >= 0;
    NatToString(cents / 100) + "." + Pad2(cents % 100)
  }

  /** `f"{x:.2f}"`: two decimals, a minus sign on negative amounts. */
  function FormatFixed2(x: real): (r: string)
    ensures x >= 0.0 ==> r == FormatUnsigned2(x)
    ensures x < 0.0 ==> r == "-" + FormatUnsigned2(-x)
  {
    if x < 0.0 then "-" + FormatUnsigned2(-x) else FormatUnsigned2(x)
  }

  /** Rounding half to even is symmetric about zero. */
  lemma RoundHalfEvenOdd(y: real)
    ensures RoundHalfEven(-y) == -RoundHalfEven(y)
  {
    var a, b := RoundHalfEven(y), -RoundHalfEven(-y);
    if a != b {
      assert false;
    }
  }

  /** `%02d` of a number below 100 has exactly two digits. */
  lemma Pad2Length(n: nat)
    requires n < 100
    ensures |Pad2(n)| == 2
  {
    if n >= 10 {
      assert NatToString(n) == NatToString(n / 10) + [DigitChar(n % 10)];
    }
  }

  /** The whole and cent digits of a number of cents spell that many hundredths. */
  lemma CentsDigits(cents: nat)
    ensures DecimalValue(NatToString(cents / 100), Pad2(cents % 100)) == cents as real / 100.0
  {
    var w, f := NatToString(cents / 100), Pad2(cents % 100);
    NatToStringValue(cents / 100);
    Pad2Value(cents % 100);
    Pad2Length(cents % 100);
    assert Pow10(2) == 100 by {
      assert Pow10(1) == 10;
    }
    assert DecimalValue(w, f) == (cents / 100) as real + (cents % 100) as real / 100.0;
    assert cents == 100 * (cents / 100) + cents % 100;
  }

  /** The text of a non-negative amount reads back as the amount rounded to the cent. */
  lemma UnsignedRoundTrip(y: real)
    requires y >= 0.0
    ensures UnsignedDecimal(FormatUnsigned2(y)) == Some(Round2(y))
  {
    var cents := RoundHalfEven(y * 100.0);
    assert cents >= 0;
    var w, f := NatToString(cents / 100), Pad2(cents % 100);
    assert FormatUnsigned2(y) == w + "." + f;
    PointDecimal(w, f);
    CentsDigits(cents);
  }

  /** Digit text with no surrounding space parses as its unsigned value. */
  lemma PlainText(u: string, v: real)
    requires |u| > 0 && IsDigit(u[0]) && IsDigit(u[|u| - 1]) && UnsignedDecimal(u) == Some(v)
    ensures ParseDecimal(u) == Some(v)
  {
    StripNoSpace(u);
  }

  /** The same text behind a minus sign parses as the negated value. */
  lemma NegatedText(u: string, v: real)
    requires |u| > 0 && IsDigit(u[0]) && IsDigit(u[|u| - 1]) && UnsignedDecimal(u) == Some(v)
    ensures ParseDecimal("-" + u) == Some(-v)
  {
    var s := "-" + u;
    StripNoSpace(s);
    assert s[1..] == u;
  }

  /** The amount text begins and ends with a digit. */
  lemma FormattedEnds(y: real)
    requires y >= 0.0
    ensures |FormatUnsigned2(y)| > 0
    ensures IsDigit(FormatUnsigned2(y)[0]) && IsDigit(FormatUnsigned2(y)[|FormatUnsigned2(y)| - 1])
  {
    var cents := RoundHalfEven(y * 100.0);
    var w, f := NatToString(cents / 100), Pad2(cents % 100);
    assert FormatUnsigned2(y) == w + "." + f;
  }

  /** `round(-x, 2) == -round(x, 2)`: the rounding of negative amounts mirrors the positive ones. */
  lemma Round2Odd(x: real)
    ensures Round2(-x) == -Round2(x)
  {
    RoundHalfEvenOdd(x * 100.0);
    assert -x * 100.0 == -(x * 100.0);
  }

  /** The text of a negative amount reads back as minus its rounded magnitude. */
  lemma NegativeRoundTrip(y: real, v: real)
    requires y > 0.0 && v == Round2(y)
    ensures ParseDecimal("-" + FormatUnsigned2(y)) == Some(-v)
  {
    UnsignedRoundTrip(y);
    FormattedEnds(y);
    NegatedText(FormatUnsigned2(y), v);
  }

  /**
   * `float(f"{x:.2f}")` is `round(x, 2)` for the non-negative amounts the
   * calculation notes show: the text reads back as the stored amount.
   */
  lemma FormatParseRoundTrip(x: real)
    requires x >= 0.0
    ensures ParseDecimal(FormatFixed2(x)) == Some(Round2(x))
  {
    UnsignedRoundTrip(x);
    FormattedEnds(x);
    PlainText(FormatUnsigned2(x), Round2(x));
  }

  lemma NegativeAmountText(x: real, v: real)
    requires x < 0.0 && v == Round2(-x)
    ensures ParseDecimal(FormatFixed2(x)) == Some(-v)
  {
    NegativeRoundTrip(-x, v);
  }

  /**
   * A negative amount reads back as minus its rounded magnitude, which is
   * `round(x, 2)` again by `Round2Odd`.
   */
  lemma NegativeFormatParse(x: real)
    requires x < 0.0
    ensures ParseDecimal(FormatFixed2(x)) == Some(-Round2(-x))
  {
    NegativeAmountText(x, Round2(-x));
  }
}
