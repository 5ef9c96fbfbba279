/**
 * The small part of JavaScript's number/string conversion the server relies on:
 * the decimal text of a non-negative integer (`String(n)`), the value of a string
 * of decimal digits, and `String.prototype.padStart` with a one-character filler.
 */
module JsText {

  predicate IsDigit(c: char) {
    '0' <= c <= '9'
  }

  /** A non-empty string made only of the digits 0-9. */
  predicate IsDecimal(s: string) {
    |s| > 0 && forall i :: 0 <= i < |s| ==> IsDigit(s[i])
  }

  /** No superfluous leading zero: the form `String(n)` produces. */
  predicate IsCanonicalDecimal(s: string) {
    IsDecimal(s) && (|s| > 1 ==> s[0] != '0')
  }

  function DigitChar(d: nat): (c: char)
    requires d < 10
    ensures IsDigit(c) && (c as int) - ('0' as int) == d
  {
    ('0' as int + d) as char
  }

  function DigitValue(c: char): (d: nat)
    requires IsDigit(c)
    ensures d < 10 && DigitChar(d) == c
  {
    (c as int) - ('0' as int)
  }

  /** The value of a string of decimal digits, most significant digit first. */
  function DigitsValue(s: string): nat
    requires forall i :: 0 <= i < |s| ==> IsDigit(s[i])
  {
    if s == [] then 0
    else DigitsValue(s[..|s| - 1]) * 10 + DigitValue(s[|s| - 1])
  }

  /** `String(n)` for a non-negative integer below 10^21 (no exponent form). */
  function DecimalText(n: nat): (s: string)
    ensures IsCanonicalDecimal(s)
    ensures n < 10 <==> |s| == 1
  {
    if n < 10 then [DigitChar(n)] else DecimalText(n / 10) + [DigitChar(n % 10)]
  }

  /** `String(i)` for an integer: a minus sign in front of a negative value. */
  function IntText(i: int): (s: string)
    ensures |s| > 0
    ensures i < 0 <==> s[0] == '-'
    ensures var digits := if i < 0 then s[1..] else s;
      IsCanonicalDecimal(digits) && DigitsValue(digits) == if i < 0 then -i else i
  {
    if i < 0 then
      DecimalTextValue(-i);
      assert ("-" + DecimalText(-i))[1..] == DecimalText(-i);
      "-" + DecimalText(-i)
    else
      DecimalTextValue(i);
      DecimalText(i)
  }

  /** Reading back the text of a number gives the number. */
  lemma {:induction false} DecimalTextValue(n: nat)
    ensures DigitsValue(DecimalText(n)) == n
  {
    if n >= 10 {
      var s := DecimalText(n);
      assert s[..|s| - 1] == DecimalText(n / 10);
      DecimalTextValue(n / 10);
    }
  }

  /** Every canonical decimal string is the text of its own value. */
  lemma {:induction false} CanonicalDecimalText(s: string)
    requires IsCanonicalDecimal(s)
    ensures DecimalText(DigitsValue(s)) == s
  {
    if |s| > 1 {
      var p := s[..|s| - 1];
      assert IsCanonicalDecimal(p);
      CanonicalDecimalText(p);
      DigitsValueLower(p);
      var n := DigitsValue(s);
      assert n / 10 == DigitsValue(p) && n % 10 == DigitValue(s[|s| - 1]);
      assert s == p + [s[|s| - 1]];
    }
  }

  /** A canonical decimal of two or more digits is worth at least 10. */
  lemma {:induction false} DigitsValueLower(s: string)
    requires IsCanonicalDecimal(s)
    ensures |s| > 1 ==> DigitsValue(s) >= 10
    ensures DigitsValue(s) > 0 || s == "0"
  {
    if |s| > 1 {
      var p := s[..|s| - 1];
      assert IsCanonicalDecimal(p);
      DigitsValueLower(p);
    }
  }

  /**
   * `s.padStart(width, [fill])`: `s` itself when it is already `width` long,
   * otherwise `fill` repeated in front of it up to `width` characters.
   */
  function PadStart(s: string, width: nat, fill: char): (r: string)
    ensures |r| == if |s| >= width then |s| else width
    ensures r[|r| - |s|..] == s
    ensures forall i :: 0 <= i < |r| - |s| ==> r[i] == fill
  {
    if |s| >= width then s else seq(width - |s|, _ => fill) + s
  }

  /** `String(n).padStart(2, "0")` for a clock or calendar field. */
  function TwoDigits(n: nat): (s: string)
    requires n < 100
    ensures |s| == 2 && IsDecimal(s) && DigitsValue(s) == n
  {
    var t := DecimalText(n);
    DecimalTextValue(n);
    var r := PadStart(t, 2, '0');
    assert |t| == 2 ==> r == t;
    assert |t| == 1 ==> r == ['0'] + t && DigitsValue(r[..1]) == 0;
    r
  }
}
