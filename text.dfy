/**
 * The few pieces of JavaScript string behaviour the timer pages rely on:
 * `String(n)` for integers, `padStart(2, '0')` and `parseInt(text)` (no radix).
 */
module Text {
  import opened Wrappers

  predicate IsDigit(c: char) { '0' <= c <= '9' }

  predicate AllDigits(s: string) { forall i :: 0 <= i < |s| ==> IsDigit(s[i]) }

  function DigitChar(d: nat): (c: char)
    requires d < 10
    ensures IsDigit(c)
  {
    (48 + d) as char
  }

  function DigitValue(c: char): (d: nat)
    requires IsDigit(c)
    ensures d < 10 && DigitChar(d) == c
  {
    c as int - 48
  }

  /** `String(n)` for a non-negative integer: decimal digits, no leading zero. */
  function ShowNat(n: nat): (s: string)
    ensures |s| >= 1 && AllDigits(s)
    ensures s[0] == '0' <==> n == 0
    ensures n < 10 <==> |s| == 1
    decreases n
  {
    if n < 10 then [DigitChar(n)] else ShowNat(n / 10) + [DigitChar(n % 10)]
  }

  /** `String(i)` for any integer: a minus sign before the digits of a negative value. */
  function ShowInt(i: int): (s: string)
    ensures |s| >= 1
    ensures i < 0 <==> s[0] == '-'
    ensures i < 0 ==> |s| >= 2
  {
    if i < 0 then "-" + ShowNat(-i) else ShowNat(i)
  }

  /** The value of a string of decimal digits (leading zeros allowed; "" is 0). */
  function DigitsValue(s: string): nat
    requires AllDigits(s)
  {
    if s == [] then 0 else 10 * DigitsValue(s[..|s| - 1]) + DigitValue(s[|s| - 1])
  }

  lemma {:induction false} DigitsValueOfShowNat(n: nat)
    ensures DigitsValue(ShowNat(n)) == n
    decreases n
  {
    if n >= 10 {
      var s := ShowNat(n);
      assert s[..|s| - 1] == ShowNat(n / 10);
      DigitsValueOfShowNat(n / 10);
    }
  }

  lemma {:induction false} DigitsValueLeadingZero(s: string)
    requires AllDigits(s)
    ensures DigitsValue("0" + s) == DigitsValue(s)
  {
    if s != [] {
      assert ("0" + s)[..|s|] == "0" + s[..|s| - 1];
      DigitsValueLeadingZero(s[..|s| - 1]);
    }
  }

  /** `s.padStart(2, '0')`. */
  function PadStart2(s: string): (r: string)
    ensures |r| == if |s| < 2 then 2 else |s|
    ensures r[|r| - |s|..] == s
    ensures forall i :: 0 <= i < |r| - |s| ==> r[i] == '0'
  {
    if |s| == 0 then "00" else if |s| == 1 then "0" + s else s
  }

  /** Padding a digit string with zeros keeps it a digit string of the same value. */
  lemma PadStart2Digits(s: string)
    requires AllDigits(s)
    ensures AllDigits(PadStart2(s)) && DigitsValue(PadStart2(s)) == DigitsValue(s)
  {
    if |s| == 0 {
      DigitsValueLeadingZero("0");
    } else if |s| == 1 {
      DigitsValueLeadingZero(s);
    }
  }

  /** White space that `parseInt` skips before the number. */
  predicate IsJsSpace(c: char)
  {
    c == ' ' || c == '\t' || c == '\n' || c == '\r' || c == '\U{000B}' || c == '\U{000C}' ||
    c == '\U{00A0}' || c == '\U{1680}' || ('\U{2000}' <= c <= '\U{200A}') ||
    c == '\U{2028}' || c == '\U{2029}' || c == '\U{202F}' || c == '\U{205F}' ||
    c == '\U{3000}' || c == '\U{FEFF}'
  }

  function TrimStart(s: string): (r: string)
    ensures |r| <= |s| && r == s[|s| - |r|..]
    ensures r == [] || !IsJsSpace(r[0])
  {
    if s != [] && IsJsSpace(s[0]) then TrimStart(s[1..]) else s
  }

  /** The longest prefix of `s` made of decimal digits. */
  function LeadingDigits(s: string): (r: string)
    ensures AllDigits(r) && r <= s
    ensures |r| < |s| ==> !IsDigit(s[|r|])
  {
    if s != [] && IsDigit(s[0]) then [s[0]] + LeadingDigits(s[1..]) else []
  }

  /**
   * `parseInt(text)`: skip leading white space, read an optional sign and the
   * decimal digits that follow; None stands for NaN (no digit there).
   */
  function ParseInt(text: string): (r: Option<int>)
    ensures text == [] ==> r == None
    ensures r.Some? ==> exists i :: 0 <= i < |text| && IsDigit(text[i])
  {
    var t := TrimStart(text);
    var negative := t != [] && t[0] == '-';
    var body := if t != [] && (t[0] == '-' || t[0] == '+') then t[1..] else t;
    var digits := LeadingDigits(body);
    var value: int := if digits == [] then 0 else DigitsValue(digits);
    if digits == [] then None
    else if negative then Some(-value)
    else Some(value)
  }

  /** `parseInt(text) || 0`: NaN (and 0) become 0. */
  function IntOrZero(text: string): (r: int)
    ensures ParseInt(text).None? ==> r == 0
    ensures ParseInt(text).Some? ==> r == ParseInt(text).value
  {
    match ParseInt(text)
    case None => 0
    case Some(v) => v
  }

  lemma {:induction false} LeadingDigitsOfDigits(s: string)
    requires AllDigits(s)
    ensures LeadingDigits(s) == s
  {
    if s != [] {
      LeadingDigitsOfDigits(s[1..]);
    }
  }

  /** On a non-empty string of decimal digits `parseInt` is the plain decimal value. */
  lemma ParseIntOfDigits(text: string)
    requires AllDigits(text) && text != []
    ensures ParseInt(text) == Some(DigitsValue(text))
  {
    TrimStartOfDigits(text);
    assert text[0] != '-' && text[0] != '+';
    LeadingDigitsOfDigits(text);
  }

  /** A digit is not white space, so trimming leaves a digit string alone. */
  lemma TrimStartOfDigits(text: string)
    requires AllDigits(text) && text != []
    ensures TrimStart(text) == text
  {
    assert IsDigit(text[0]);
    assert !IsJsSpace(text[0]);
  }

  lemma ParseIntOfShowNat(n: nat)
    ensures ParseInt(ShowNat(n)) == Some(n)
    ensures ParseInt(PadStart2(ShowNat(n))) == Some(n)
  {
    DigitsValueOfShowNat(n);
    PadStart2Digits(ShowNat(n));
    ParseIntOfDigits(ShowNat(n));
    ParseIntOfDigits(PadStart2(ShowNat(n)));
  }
}
