/**
 * Decimal text of integers, as Python `str(int)`, f-string `{i}` and `{i:03d}`
 * and JavaScript template literals write them for integer values, and the
 * reading back of such text.
 */
module Decimal {
  import opened SeqUtil

  /** The character of a decimal digit. */
  function DigitChar(d: nat): (ch: char)
    requires d < 10
    ensures '0' <= ch <= '9'
  {
    (('0' as int) + d) as char
  }

  /** The value of a decimal digit character. */
  function DigitValue(ch: char): (d: nat)
    requires '0' <= ch <= '9'
    ensures d < 10
  {
    (ch as int) - ('0' as int)
  }

  /** Only decimal digit characters. */
  predicate IsDigits(s: string) {
    forall i :: 0 <= i < |s| ==> '0' <= s[i] <= '9'
  }

  /** `str(n)` of a non-negative integer: its digits, most significant first, without leading zeros. */
  function Digits(n: nat): (s: string)
    ensures |s| > 0 && IsDigits(s)
    ensures |s| > 1 ==> s[0] != '0'
  {
    if n < 10 then [DigitChar(n)] else Digits(n / 10) + [DigitChar(n % 10)]
  }

  /** The value of a string of digits; leading zeros do not count. */
  function Parse(s: string): nat
    requires IsDigits(s)
  {
    if |s| == 0 then 0 else Parse(s[..|s| - 1]) * 10 + DigitValue(s[|s| - 1])
  }

  /** `str(i)` of any integer: a minus sign before the digits of a negative value. */
  function IntString(i: int): (s: string)
    ensures |s| > 0
    ensures i >= 0 ==> s == Digits(i) && IsDigits(s)
    ensures i < 0 ==> s == "-" + Digits(-i)
  {
    if i < 0 then "-" + Digits(-i) else Digits(i)
  }

  /** `k` zero characters. */
  function Zeros(k: nat): (s: string)
    ensures |s| == k && IsDigits(s)
    ensures forall i :: 0 <= i < k ==> s[i] == '0'
  {
    if k == 0 then "" else Zeros(k - 1) + "0"
  }

  /**
   * `format(i, "0{width}d")`: the sign, then enough zeros that the whole text
   * is at least `width` characters (the sign counts toward the width), then
   * the digits of the magnitude.
   */
  function ZeroPad(i: int, width: nat): (s: string)
    ensures |s| == Max(width, |IntString(i)|)
  {
    var sign := if i < 0 then "-" else "";
    var digits := Digits(if i < 0 then -i else i);
    var fill := width - |sign| - |digits|;
    sign + Zeros(if fill > 0 then fill else 0) + digits
  }

  // -------------------------------------------------------------- lemmas

  lemma DigitRoundTrip(d: nat)
    requires d < 10
    ensures DigitValue(DigitChar(d)) == d
  {
  }

  /** Reading back the digits of `n` gives `n`. */
  lemma {:induction false} ParseDigits(n: nat)
    ensures Parse(Digits(n)) == n
  {
    if n >= 10 {
      ParseDigits(n / 10);
      var s := Digits(n);
      assert s[..|s| - 1] == Digits(n / 10);
      DigitRoundTrip(n % 10);
    } else {
      DigitRoundTrip(n);
      assert Digits(n)[..0] == "";
    }
  }

  /** Digits after leading zeros are read as if the zeros were not there. */
  lemma {:induction false} ParseLeadingZeros(k: nat, s: string)
    requires IsDigits(s)
    ensures Parse(Zeros(k) + s) == Parse(s)
  {
    var t := Zeros(k) + s;
    if |s| == 0 {
      assert t == Zeros(k);
      ParseZeros(k);
    } else {
      var init := s[..|s| - 1];
      assert t[..|t| - 1] == Zeros(k) + init;
      ParseLeadingZeros(k, init);
    }
  }

  lemma {:induction false} ParseZeros(k: nat)
    ensures Parse(Zeros(k)) == 0
  {
    if k > 0 {
      assert Zeros(k)[..k - 1] == Zeros(k - 1);
      ParseZeros(k - 1);
    }
  }

  /** A value below 1000 has at most three digits. */
  lemma DigitsBelowThousand(n: nat)
    requires n < 1000
    ensures |Digits(n)| <= 3
  {
    if n >= 10 {
      var m := n / 10;
      assert m < 100;
      if m >= 10 {
        assert m / 10 < 10;
        assert |Digits(m / 10)| == 1;
        assert |Digits(m)| == 2;
      } else {
        assert |Digits(m)| == 1;
      }
      assert |Digits(n)| == |Digits(m)| + 1;
    }
  }

  /** A zero-padded non-negative value is all digits and reads back as the value. */
  lemma ZeroPadRoundTrip(n: nat, width: nat)
    ensures IsDigits(ZeroPad(n, width))
    ensures Parse(ZeroPad(n, width)) == n
  {
    var fill := width - |Digits(n)|;
    var k := if fill > 0 then fill else 0;
    assert ZeroPad(n, width) == Zeros(k) + Digits(n);
    ParseLeadingZeros(k, Digits(n));
    ParseDigits(n);
  }

  /** `{n:03d}` of a value in 0..999 is exactly three characters. */
  lemma ZeroPadThree(n: nat)
    requires n < 1000
    ensures |ZeroPad(n, 3)| == 3
  {
    DigitsBelowThousand(n);
  }
}
