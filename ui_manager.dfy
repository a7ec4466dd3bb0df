/**
 * The input side of the page (manager/UIManager.js): the minutes and seconds
 * fields, their digit filtering and clamping, the write-back of the time left
 * into them, the `isEditing` flag and the button states. Field values are the
 * strings the inputs hold.
 */
module UIManager {
  import opened Wrappers
  import opened Text
  import opened Clock

  datatype Field = Minutes | Seconds

  /** The clamp bound of validateTimeInput: 99 for the `minutes` input, 59 otherwise. */
  function MaxOf(f: Field): nat
  {
    if f == Minutes then 99 else 59
  }

  /** getCurrentDuration on the two field texts: `parseInt(..) || 0` for each. */
  function Duration(minutes: string, seconds: string): int
  {
    IntOrZero(minutes) * 60 + IntOrZero(seconds)
  }

  /** getCurrentDuration reads the fields written for `t` seconds back as `t`. */
  lemma DurationOfWrittenFields(t: int)
    requires t >= 0
    ensures Duration(MinutesField(t), SecondsField(t)) == t
  {
    FieldsRoundTrip(t);
  }

  /** Fields holding only digits never give a negative duration. */
  lemma DigitFieldsGiveNonNegativeDuration(minutes: string, seconds: string)
    requires AllDigits(minutes) && AllDigits(seconds)
    ensures Duration(minutes, seconds) >= 0
  {
    if minutes != [] {
      ParseIntOfDigits(minutes);
    }
    if seconds != [] {
      ParseIntOfDigits(seconds);
    }
  }

  /** validateTimeInput: NaN and negatives become 0, values above the bound become the bound, then two digits. */
  function Validated(text: string, f: Field): (r: string)
    ensures |r| == 2 && AllDigits(r) && DigitsValue(r) <= MaxOf(f)
    ensures ParseInt(text).None? || ParseInt(text).value < 0 ==> r == "00"
    ensures ParseInt(text).Some? && 0 <= ParseInt(text).value <= MaxOf(f) ==> DigitsValue(r) == ParseInt(text).value
    ensures ParseInt(text).Some? && ParseInt(text).value > MaxOf(f) ==> DigitsValue(r) == MaxOf(f)
  {
    var parsed := ParseInt(text);
    var value: nat :=
      if parsed.None? || parsed.value < 0 then 0
      else if parsed.value > MaxOf(f) then MaxOf(f)
      else parsed.value;
    DigitsValueOfShowNat(value);
    PadStart2Digits(ShowNat(value));
    PadStart2(ShowNat(value))
  }

  /** A validated field reads back, through getCurrentDuration's `parseInt`, as the clamped value. */
  lemma ValidatedReadsBack(text: string, f: Field)
    ensures 0 <= IntOrZero(Validated(text, f)) <= MaxOf(f)
    ensures ParseInt(text).Some? && 0 <= ParseInt(text).value <= MaxOf(f) ==>
      IntOrZero(Validated(text, f)) == ParseInt(text).value
  {
    ParseIntOfDigits(Validated(text, f));
  }

  /** handleInput: `value.replace(/[^0-9]/g, '')`. */
  function KeepDigits(s: string): (r: string)
    ensures AllDigits(r) && |r| <= |s|
    ensures forall c :: IsDigit(c) ==> multiset(r)[c] == multiset(s)[c]
  {
    if s == [] then []
    else
      assert s == [s[0]] + s[1..];
      (if IsDigit(s[0]) then [s[0]] else []) + KeepDigits(s[1..])
  }

  /** The digits that remain keep their original order. */
  lemma {:induction false} KeepDigitsAppend(a: string, b: string)
    ensures KeepDigits(a + b) == KeepDigits(a) + KeepDigits(b)
  {
    if a == [] {
      assert a + b == b;
    } else {
      assert (a + b)[0] == a[0];
      assert (a + b)[1..] == a[1..] + b;
      KeepDigitsAppend(a[1..], b);
    }
  }

  /** Text that is already digits only is left alone. */
  lemma {:induction false} DigitsAreKept(s: string)
    requires AllDigits(s)
    ensures KeepDigits(s) == s
  {
    if s != [] {
      DigitsAreKept(s[1..]);
    }
  }

  /** Filtering twice is filtering once. */
  /** The fields written for a time left of t >= 0 seconds are digits, so the input filter leaves them alone. */
  lemma WrittenFieldsPassFilter(t: int)
    requires t >= 0
    ensures KeepDigits(MinutesField(t)) == MinutesField(t)
    ensures KeepDigits(SecondsField(t)) == SecondsField(t) && |SecondsField(t)| == 2
  {
    MinutesFieldOfNat(t);
    SecondsFieldOfNat(t);
    DigitsAreKept(MinutesField(t));
    DigitsAreKept(SecondsField(t));
  }

  lemma KeepDigitsIdempotent(s: string)
    ensures KeepDigits(KeepDigits(s)) == KeepDigits(s)
  {
    DigitsAreKept(KeepDigits(s));
  }

  /** The page's inputs and buttons, overwritten in place. */
  class UIManager {
    var minutesValue: string
    var secondsValue: string
    var isEditing: bool
    var startPauseLabel: string
    var minutesDisabled: bool
    var secondsDisabled: bool

    /** The inputs start with whatever the page's markup holds. */
    constructor (minutes: string, seconds: string)
      ensures minutesValue == minutes && secondsValue == seconds && !isEditing
    {
      minutesValue, secondsValue := minutes, seconds;
      isEditing := false;
      startPauseLabel := "Start";
      minutesDisabled, secondsDisabled := false, false;
    }

    /** getCurrentDuration(). */
    function CurrentDuration(): int
      reads this
    {
      Duration(minutesValue, secondsValue)
    }

    function Value(f: Field): string
      reads this
    {
      if f == Minutes then minutesValue else secondsValue
    }

    /** Writes the time left back into the inputs unless the user is editing them. */
    method UpdateTimerDisplay(timeLeft: int)
      modifies this`minutesValue, this`secondsValue
      ensures isEditing ==> minutesValue == old(minutesValue) && secondsValue == old(secondsValue)
      ensures !isEditing ==> minutesValue == MinutesField(timeLeft) && secondsValue == SecondsField(timeLeft)
      ensures !isEditing && timeLeft >= 0 ==> CurrentDuration() == timeLeft
    {
      if !isEditing {
        minutesValue := MinutesField(timeLeft);
        secondsValue := SecondsField(timeLeft);
        if timeLeft >= 0 {
          FieldsRoundTrip(timeLeft);
        }
      }
    }

    /** The start/pause label and the two inputs' disabled flags. */
    method UpdateButtonStates(isRunning: bool)
      modifies this`startPauseLabel, this`minutesDisabled, this`secondsDisabled
      ensures startPauseLabel == "Pause" <==> isRunning
      ensures startPauseLabel == "Start" <==> !isRunning
      ensures minutesDisabled == isRunning && secondsDisabled == isRunning
    {
      startPauseLabel := if isRunning then "Pause" else "Start";
      minutesDisabled := isRunning;
      secondsDisabled := isRunning;
    }

    method HandleInputFocus()
      modifies this`isEditing
      ensures isEditing
    {
      isEditing := true;
    }

    /** Only the digits of the field remain, in their order. */
    method HandleInput(f: Field)
      modifies this`minutesValue, this`secondsValue
      ensures Value(f) == KeepDigits(old(Value(f)))
      ensures f == Minutes ==> secondsValue == old(secondsValue)
      ensures f == Seconds ==> minutesValue == old(minutesValue)
    {
      if f == Minutes {
        minutesValue := KeepDigits(minutesValue);
      } else {
        secondsValue := KeepDigits(secondsValue);
      }
    }

    method ValidateTimeInput(f: Field)
      modifies this`minutesValue, this`secondsValue
      ensures Value(f) == Validated(old(Value(f)), f)
      ensures f == Minutes ==> secondsValue == old(secondsValue)
      ensures f == Seconds ==> minutesValue == old(minutesValue)
    {
      if f == Minutes {
        minutesValue := Validated(minutesValue, f);
      } else {
        secondsValue := Validated(secondsValue, f);
      }
    }

    /**
     * Validates the field left, ends editing and rewrites both inputs from the
     * resulting duration: a seconds value over 59 in the other input carries
     * into the minutes.
     */
    method HandleInputBlur(f: Field)
      modifies this`minutesValue, this`secondsValue, this`isEditing
      ensures !isEditing
      ensures var d := if f == Minutes then Duration(Validated(old(minutesValue), f), old(secondsValue))
                       else Duration(old(minutesValue), Validated(old(secondsValue), f));
        minutesValue == MinutesField(d) && secondsValue == SecondsField(d) &&
        (d >= 0 ==> CurrentDuration() == d && IntOrZero(secondsValue) == d % 60 < 60)
    {
      ValidateTimeInput(f);
      isEditing := false;
      var d := CurrentDuration();
      UpdateTimerDisplay(d);
      if d >= 0 {
        FieldsRoundTrip(d);
      }
    }
  }
}
