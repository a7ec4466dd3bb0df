/**
 * The "MM:SS" rendering shared by the pages: `Math.floor(t / 60)` and `t % 60`,
 * each through `String(..).padStart(2, '0')`, joined by a colon.
 */
module Clock {
  import opened Wrappers
  import opened Text

  /** JavaScript's `a % b` for a positive divisor: truncating, so the remainder has the sign of `a`. */
  function JsRem(a: int, b: int): (r: int)
    requires b > 0
    ensures a >= 0 ==> r == a % b
    ensures a >= 0 ==> 0 <= r < b
    ensures a < 0 ==> -b < r <= 0
    ensures a < 0 ==> r == -((-a) % b)
  {
    if a >= 0 then a % b else -((-a) % b)
  }

  /** The minutes part: Dafny's `/` by a positive divisor is `Math.floor` of the quotient. */
  function MinutesField(t: int): string
  {
    PadStart2(ShowInt(t / 60))
  }

  function SecondsField(t: int): string
  {
    PadStart2(ShowInt(JsRem(t, 60)))
  }

  /** `formatTime(t)` for a whole number of seconds. */
  function FormatTime(t: int): string
  {
    MinutesField(t) + ":" + SecondsField(t)
  }

  /** At least "MM:SS"; for t >= 0 the seconds are the last two characters, after the colon. */
  lemma FormatTimeShape(t: int)
    ensures |FormatTime(t)| >= 5
    ensures t >= 0 ==> FormatTime(t)[|FormatTime(t)| - 3] == ':'
  {
    SecondsFieldOfNat(t);
    MinutesFieldOfNat(t);
  }

  /** For t >= 0 the seconds field is exactly two digits holding t % 60. */
  lemma SecondsFieldOfNat(t: int)
    ensures |SecondsField(t)| >= 2
    ensures t >= 0 ==> |SecondsField(t)| == 2 && AllDigits(SecondsField(t))
    ensures t >= 0 ==> DigitsValue(SecondsField(t)) == t % 60 < 60
  {
    if t >= 0 {
      DigitsValueOfShowNat(t % 60);
      PadStart2Digits(ShowNat(t % 60));
    }
  }

  lemma MinutesFieldOfNat(t: int)
    ensures |MinutesField(t)| >= 2
    ensures t >= 0 ==> AllDigits(MinutesField(t)) && DigitsValue(MinutesField(t)) == t / 60
  {
    if t >= 0 {
      DigitsValueOfShowNat(t / 60);
      PadStart2Digits(ShowNat(t / 60));
    }
  }

  /** Reading the two fields back with `parseInt(..) || 0` gives the seconds they were written from. */
  lemma FieldsRoundTrip(t: int)
    requires t >= 0
    ensures IntOrZero(MinutesField(t)) == t / 60 && IntOrZero(SecondsField(t)) == t % 60
    ensures IntOrZero(MinutesField(t)) * 60 + IntOrZero(SecondsField(t)) == t
  {
    ParseIntOfShowNat(t / 60);
    ParseIntOfShowNat(t % 60);
  }

  function FirstIndexOf(s: string, c: char): (i: nat)
    ensures i <= |s|
    ensures i < |s| ==> s[i] == c
  {
    if s == [] || s[0] == c then 0 else 1 + FirstIndexOf(s[1..], c)
  }

  /** Reads "MM:SS" back as 60 * MM + SS; None when the text is not two digit runs around a colon. */
  function ClockValue(text: string): (r: Option<int>)
    ensures r.Some? ==> r.value >= 0
  {
    var i := FirstIndexOf(text, ':');
    if i == |text| then None else FieldsValue(text[..i], text[i + 1..])
  }

  /** The minutes and seconds texts around the colon, read as 60 * MM + SS when both are digit runs. */
  function FieldsValue(mm: string, ss: string): (r: Option<int>)
    ensures r.Some? ==> r.value >= 0
  {
    if mm != [] && ss != [] && AllDigits(mm) && AllDigits(ss)
    then Some(60 * DigitsValue(mm) + DigitsValue(ss))
    else None
  }

  /** In digits, a colon and more text, the first colon is the one after the digits. */
  lemma {:induction false} ColonAfterDigits(mm: string, ss: string)
    requires AllDigits(mm)
    ensures FirstIndexOf(mm + ":" + ss, ':') == |mm|
  {
    var text := mm + ":" + ss;
    if mm == [] {
      assert text[0] == ':';
    } else {
      assert text[0] == mm[0] != ':';
      assert text[1..] == mm[1..] + ":" + ss;
      ColonAfterDigits(mm[1..], ss);
    }
  }

  /** Two digit runs around a colon read back as minutes and seconds. */
  lemma ClockValueOfFields(mm: string, ss: string)
    requires mm != [] && ss != [] && AllDigits(mm) && AllDigits(ss)
    ensures ClockValue(mm + ":" + ss) == Some(60 * DigitsValue(mm) + DigitsValue(ss))
  {
    ClockValueSplits(mm, ss);
    FieldsValueOfDigits(mm, ss);
  }

  lemma FieldsValueOfDigits(mm: string, ss: string)
    requires mm != [] && ss != [] && AllDigits(mm) && AllDigits(ss)
    ensures FieldsValue(mm, ss) == Some(60 * DigitsValue(mm) + DigitsValue(ss))
  {
  }

  /** After a digit run, the first colon separates the two fields. */
  lemma ClockValueSplits(mm: string, ss: string)
    requires AllDigits(mm)
    ensures ClockValue(mm + ":" + ss) == FieldsValue(mm, ss)
  {
    ColonAfterDigits(mm, ss);
    SplitAtColon(mm, ss);
  }

  lemma SplitAtColon(mm: string, ss: string)
    ensures (mm + ":" + ss)[..|mm|] == mm && (mm + ":" + ss)[|mm| + 1..] == ss
  {
  }

  lemma FormatTimeRoundTrip(t: int)
    requires t >= 0
    ensures ClockValue(FormatTime(t)) == Some(t)
  {
    MinutesFieldOfNat(t);
    SecondsFieldOfNat(t);
    ClockValueOfFields(MinutesField(t), SecondsField(t));
  }

  lemma PaddedIsZerosOnlyForZero(n: nat)
    ensures PadStart2(ShowNat(n)) == "00" <==> n == 0
  {
    var s := ShowNat(n);
    if n != 0 {
      assert s[0] != '0';
      assert PadStart2(s)[|PadStart2(s)| - |s|] == s[0];
    }
  }

  lemma ZerosSplit(mm: string, ss: string)
    requires |mm| >= 2 && |ss| >= 2 && mm + ":" + ss == "00:00"
    ensures mm == "00" && ss == "00"
  {
    assert |mm| == 2 && |ss| == 2;
    assert mm == (mm + ":" + ss)[..2];
    assert ss == (mm + ":" + ss)[3..];
  }

  lemma NegativeMinutes(t: int)
    requires t < 0
    ensures MinutesField(t)[0] == '-'
  {
    var q := t / 60;
    assert q < 0;
    assert |ShowInt(q)| >= 2;
  }

  /** The display reads "00:00" exactly for zero seconds, negative values included. */
  lemma FormatTimeIsZeroOnlyForZero(t: int)
    ensures FormatTime(t) == "00:00" <==> t == 0
  {
    MinutesFieldOfNat(t);
    SecondsFieldOfNat(t);
    if FormatTime(t) == "00:00" {
      ZerosSplit(MinutesField(t), SecondsField(t));
      if t < 0 {
        NegativeMinutes(t);
      } else {
        PaddedIsZerosOnlyForZero(t / 60);
        PaddedIsZerosOnlyForZero(t % 60);
      }
    }
  }
}
