/** Decimal text of amounts: `Number.prototype.toFixed(2)` on an exact amount,
    the percentage strings built from it, and a reader for that text that
    says what number a string denotes. */
module DecimalText {
  import opened Wrappers
  import Money

  predicate IsDigit(c: char) {
    '0' <= c <= '9'
  }

  predicate AllDigits(s: string) {
    forall i :: 0 <= i < |s| ==> IsDigit(s[i])
  }

  /** The character of a decimal digit. */
  function DigitChar(d: nat): (c: char)
    requires d < 10
    ensures IsDigit(c)
  {
    (48 + d) as char
  }

  /** The value of a decimal digit character. */
  function DigitValue(c: char): (d: nat)
    requires IsDigit(c)
    ensures d < 10
    ensures DigitChar(d) == c
  {
    c as int - 48
  }

  lemma DigitRoundTrip(d: nat)
    requires d < 10
    ensures DigitValue(DigitChar(d)) == d
  {
  }

  /** The number a string of decimal digits denotes (most significant first). */
  function DigitsValue(s: string): nat
    requires AllDigits(s)
  {
    if |s| == 0 then 0 else DigitsValue(s[..|s| - 1]) * 10 + DigitValue(s[|s| - 1])
  }

  /** Shortest decimal text of a natural number. */
  function NatText(n: nat): (s: string)
    ensures |s| >= 1 && AllDigits(s)
    ensures |s| > 1 ==> s[0] != '0'
    ensures DigitsValue(s) == n
  {
    if n < 10 then [DigitChar(n)]
    else
      var s := NatText(n / 10) + [DigitChar(n % 10)];
      assert s[..|s| - 1] == NatText(n / 10);
      s
  }

  function Abs(x: real): real {
    if x < 0.0 then -x else x
  }

  /** The signed number of hundredths `x.toFixed(2)` prints: the magnitude is
      rounded to the nearest hundredth with halves going up, then the sign of
      `x` is put back. */
  function FixedHundredths(x: real): int {
    if x < 0.0 then -Money.RoundCents(-x) else Money.RoundCents(x)
  }

  /** Fixed-point text with two decimals: an optional "-", the integer part
      `units`, ".", and the two digits of `hundredths`. */
  function FixedLayout(negative: bool, units: nat, hundredths: nat): string
    requires hundredths < 100
  {
    (if negative then "-" else "") + NatText(units) + "." + [DigitChar(hundredths / 10), DigitChar(hundredths % 10)]
  }

  /** `x.toFixed(2)`: an optional "-" (present whenever `x` is negative, even
      when the rounded magnitude is zero), the integer part, ".", and two digits. */
  function ToFixed2(x: real): string {
    var h: nat := Money.RoundCents(Abs(x));
    FixedLayout(x < 0.0, h / 100, h % 100)
  }

  /** `x.toFixed(2) + '%'`. */
  function PercentText(x: real): string {
    ToFixed2(x) + "%"
  }

  /** Reads the part before the decimal point: an optional "-" and at least
      one digit, as the sign and the unsigned integer part. */
  function ParseUnits(head: string): Option<(bool, nat)> {
    if |head| > 0 && head[0] == '-' then
      var digits := head[1..];
      if |digits| == 0 || !AllDigits(digits) then None else Some((true, DigitsValue(digits)))
    else if |head| == 0 || !AllDigits(head) then None
    else Some((false, DigitsValue(head)))
  }

  /** Reads text of the shape `ToFixed2` writes back as a signed count of hundredths. */
  function ParseFixed2(s: string): Option<int> {
    var n := |s|;
    if n < 4 || s[n - 3] != '.' || !IsDigit(s[n - 2]) || !IsDigit(s[n - 1]) then None
    else
      var frac := DigitValue(s[n - 2]) * 10 + DigitValue(s[n - 1]);
      match ParseUnits(s[..n - 3])
      case None => None
      case Some((negative, units)) =>
        Some(if negative then -(units * 100 + frac) else units * 100 + frac)
  }

  /** Reads a percentage string back as a signed count of hundredths of a percent. */
  function ParsePercent(s: string): Option<int> {
    if |s| > 0 && s[|s| - 1] == '%' then ParseFixed2(s[..|s| - 1]) else None
  }

  /** The integer part `FixedLayout` writes reads back as its sign and value. */
  lemma ParseUnitsText(negative: bool, units: nat)
    ensures ParseUnits((if negative then "-" else "") + NatText(units)) == Some((negative, units))
  {
    var ip := NatText(units);
    if negative {
      assert ("-" + ip)[0] == '-';
      assert ("-" + ip)[1..] == ip;
    } else {
      assert "" + ip == ip;
    }
  }

  /** Fixed-point text reads back as the signed count of hundredths it was written from. */
  lemma ParseFixedLayout(negative: bool, units: nat, hundredths: nat)
    requires hundredths < 100
    ensures ParseFixed2(FixedLayout(negative, units, hundredths))
         == Some(if negative then -(units * 100 + hundredths) else units * 100 + hundredths)
  {
    var head := (if negative then "-" else "") + NatText(units);
    var s := FixedLayout(negative, units, hundredths);
    assert s == head + "." + [DigitChar(hundredths / 10), DigitChar(hundredths % 10)];
    var n := |s|;
    assert s[n - 3] == '.' && s[n - 2] == DigitChar(hundredths / 10) && s[n - 1] == DigitChar(hundredths % 10);
    DigitRoundTrip(hundredths / 10);
    DigitRoundTrip(hundredths % 10);
    assert DigitValue(s[n - 2]) * 10 + DigitValue(s[n - 1]) == hundredths;
    assert s[..n - 3] == head;
    ParseUnitsText(negative, units);
  }

  /** The text `toFixed(2)` writes denotes exactly the rounded amount. */
  lemma ParseToFixed2(x: real)
    ensures ParseFixed2(ToFixed2(x)) == Some(FixedHundredths(x))
  {
    var h: nat := Money.RoundCents(Abs(x));
    ParseFixedLayout(x < 0.0, h / 100, h % 100);
  }

  /** A percentage string denotes exactly the rounded percentage. */
  lemma ParsePercentText(x: real)
    ensures ParsePercent(PercentText(x)) == Some(FixedHundredths(x))
  {
    var s := PercentText(x);
    assert s[..|s| - 1] == ToFixed2(x);
    ParseToFixed2(x);
  }

  /** Zero prints as "0.00%". */
  lemma PercentTextZero()
    ensures PercentText(0.0) == "0.00%"
  {
    assert Money.RoundCents(0.0) == 0;
  }
}
