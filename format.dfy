/**
 * Decimal rendering of the non-negative integers the dashboard displays
 * (hours, minutes, seconds, days of the month), and the two-character
 * zero padding used for the digital and world clocks (script.js:2-8).
 */
module Format {

  predicate IsDigit(c: char) {
    '0' <= c <= '9'
  }

  predicate IsDigits(s: string) {
    forall i :: 0 <= i < |s| ==> IsDigit(s[i])
  }

  function DigitChar(d: nat): (c: char)
    requires d < 10
    ensures IsDigit(c)
  {
    ('0' as int + d) as char
  }

  function DigitValue(c: char): (d: nat)
    requires IsDigit(c)
    ensures d < 10
  {
    c as int - '0' as int
  }

  /**
   * The shortest decimal numeral of n: no sign and no leading zero. This is
   * what `num.toString()` gives for the integers the `Date` getters return
   * (JavaScript switches to exponent notation only from 10^21 on).
   */
  function DecimalString(n: nat): (s: string)
    ensures |s| >= 1 && IsDigits(s)
    ensures |s| == 1 <==> n < 10
    ensures n < 100 ==> |s| <= 2
    ensures s[0] == '0' ==> n == 0
    decreases n
  {
    if n < 10 then [DigitChar(n)] else DecimalString(n / 10) + [DigitChar(n % 10)]
  }

  /** Reading a string of decimal digits back as a number (leading zeros allowed). */
  function ParseDecimal(s: string): nat
    requires IsDigits(s)
    decreases |s|
  {
    if s == [] then 0 else 10 * ParseDecimal(s[..|s| - 1]) + DigitValue(s[|s| - 1])
  }

  lemma {:induction false} ParseDecimalString(n: nat)
    ensures ParseDecimal(DecimalString(n)) == n
    decreases n
  {
    if n >= 10 {
      var s := DecimalString(n);
      assert s[..|s| - 1] == DecimalString(n / 10);
      ParseDecimalString(n / 10);
    }
  }

  /** A leading zero does not change the value read back. */
  lemma {:induction false} ParseLeadingZero(s: string)
    requires IsDigits(s)
    ensures IsDigits("0" + s) && ParseDecimal("0" + s) == ParseDecimal(s)
    decreases |s|
  {
    var t := "0" + s;
    assert IsDigits(t) by {
      forall i | 0 <= i < |t| ensures IsDigit(t[i]) {
        if i > 0 { assert t[i] == s[i - 1]; }
      }
    }
    if s != [] {
      assert t[..|t| - 1] == "0" + s[..|s| - 1];
      ParseLeadingZero(s[..|s| - 1]);
    }
  }

  /**
   * padZero: a numeral shorter than two characters gets one '0' in front,
   * any other numeral is returned as it is.
   */
  function PadZero(n: nat): (r: string)
    ensures IsDigits(r) && |r| >= 2
    ensures n < 10 ==> r == ['0', DigitChar(n)]
    ensures n >= 10 ==> r == DecimalString(n)
    ensures n < 100 <==> |r| == 2
  {
    var s := DecimalString(n);
    if |s| < 2 then "0" + s else s
  }

  /** The padded text still reads back as the number it was made from. */
  lemma PadZeroRoundTrip(n: nat)
    ensures ParseDecimal(PadZero(n)) == n
  {
    ParseDecimalString(n);
    if n < 10 {
      ParseLeadingZero(DecimalString(n));
    }
  }
}
