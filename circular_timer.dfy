/**
 * `formatTime` of the circular countdown display: the remaining time in whole
 * seconds (truncated), shown as "MM:SS" below an hour and "H:MM:SS" above.
 * `ParseClock` reads such a text back; it is shared with the notification text.
 */
module CircularTimer {
  import opened Wrappers
  import opened JvmInt
  import opened Text
  import opened TimeSplit

  /** `formatTime(millis)`: whole seconds by truncation, then the clock text. */
  function FormatTime(millis: int): string
  {
    ClockText(Split(Div(millis, 1000)))
  }

  /** `"%d:%02d:%02d"` when there are hours, `"%02d:%02d"` otherwise. */
  function ClockText(t: Hms): string
  {
    if t.hours > 0 then FormatD(t.hours) + ":" + Pad2(t.minutes) + ":" + Pad2(t.seconds)
    else Pad2(t.minutes) + ":" + Pad2(t.seconds)
  }

  /** A non-empty field of decimal digits. */
  function Field(s: string): Option<nat>
  {
    if |s| >= 1 && AllDigits(s) then Some(DigitsValue(s)) else None
  }

  /** A two-digit field below 60 (minutes or seconds after a colon). */
  function Sexagesimal(s: string): Option<nat>
  {
    if |s| == 2 && AllDigits(s) && DigitsValue(s) < 60 then Some(DigitsValue(s)) else None
  }

  /** Reads "M:SS" or "H:MM:SS" back to a number of seconds. */
  function ParseClock(s: string): (r: Option<nat>)
  {
    var p := SplitOn(s, ':');
    if |p| == 2 && Field(p[0]).Some? && Sexagesimal(p[1]).Some? then
      Some(Field(p[0]).value * 60 + Sexagesimal(p[1]).value)
    else if |p| == 3 && Field(p[0]).Some? && Sexagesimal(p[1]).Some? && Sexagesimal(p[2]).Some? then
      Some(Field(p[0]).value * 3600 + Sexagesimal(p[1]).value * 60 + Sexagesimal(p[2]).value)
    else None
  }

  /** Reading "a:bb" back, where `a` is any number and `bb` a two-digit clock field. */
  lemma {:induction false} ParseTwoFields(a: string, b: string)
    requires |a| >= 1 && AllDigits(a) && |b| == 2 && AllDigits(b) && DigitsValue(b) < 60
    ensures ParseClock(a + ":" + b) == Some(DigitsValue(a) * 60 + DigitsValue(b))
  {
    DigitsHaveNo(a, ':');
    DigitsHaveNo(b, ':');
    SplitAtSep(a, b, ':');
    SplitNoSep(b, ':');
  }

  /** Reading "a:bb:cc" back. */
  lemma {:induction false} ParseThreeFields(a: string, b: string, c: string)
    requires |a| >= 1 && AllDigits(a)
    requires |b| == 2 && AllDigits(b) && DigitsValue(b) < 60
    requires |c| == 2 && AllDigits(c) && DigitsValue(c) < 60
    ensures ParseClock(a + ":" + b + ":" + c)
         == Some(DigitsValue(a) * 3600 + DigitsValue(b) * 60 + DigitsValue(c))
  {
    DigitsHaveNo(a, ':');
    DigitsHaveNo(b, ':');
    DigitsHaveNo(c, ':');
    assert a + ":" + b + ":" + c == a + [':'] + (b + [':'] + c);
    SplitAtSep(a, b + [':'] + c, ':');
    SplitAtSep(b, c, ':');
    SplitNoSep(c, ':');
  }

  /** Reads back the clock text of any Hms that is a proper clock reading. */
  lemma ParseClockText(t: Hms, withHours: bool)
    requires IsClock(t) && (!withHours ==> t.hours == 0)
    ensures ParseClock(
              if withHours then FormatD(t.hours) + ":" + Pad2(t.minutes) + ":" + Pad2(t.seconds)
              else FormatD(t.minutes) + ":" + Pad2(t.seconds))
         == Some(Combine(t))
  {
    if withHours {
      ParseThreeFields(FormatD(t.hours), Pad2(t.minutes), Pad2(t.seconds));
    } else {
      ParseTwoFields(FormatD(t.minutes), Pad2(t.seconds));
    }
  }

  /** The display shows `millis / 1000` whole seconds: reading it back gives the
      truncated seconds, split with minutes and seconds in [0, 59]. */
  lemma {:induction false} FormatTimeRoundTrip(millis: int)
    requires millis >= 0
    ensures ParseClock(FormatTime(millis)) == Some(millis / 1000)
  {
    var secs := Div(millis, 1000);
    DivOfNonNegative(millis, 1000);
    SplitRoundTrip(secs);
    ClockTextRoundTrip(Split(secs));
  }

  /** A proper clock reading reads back as the seconds it stands for. */
  lemma {:induction false} ClockTextRoundTrip(t: Hms)
    requires IsClock(t)
    ensures ParseClock(ClockText(t)) == Some(Combine(t))
  {
    var m, s := Pad2(t.minutes), Pad2(t.seconds);
    if t.hours > 0 {
      ParseThreeFields(FormatD(t.hours), m, s);
    } else {
      ParseTwoFields(m, s);
    }
  }

  /** Below an hour the text is "MM:SS" with both fields two digits wide;
      from an hour on it is "H:MM:SS". */
  lemma {:induction false} FormatTimeShape(millis: int)
    requires millis >= 0
    ensures var p := SplitOn(FormatTime(millis), ':');
            && (millis < 3_600_000 ==> |p| == 2 && |p[0]| == 2 && |p[1]| == 2)
            && (millis >= 3_600_000 ==> |p| == 3 && |p[1]| == 2 && |p[2]| == 2)
  {
    var t := Split(Div(millis, 1000));
    DivOfNonNegative(millis, 1000);
    SplitRoundTrip(Div(millis, 1000));
    DigitsHaveNo(Pad2(t.minutes), ':');
    DigitsHaveNo(Pad2(t.seconds), ':');
    SplitNoSep(Pad2(t.seconds), ':');
    if t.hours > 0 {
      DigitsHaveNo(FormatD(t.hours), ':');
      assert FormatTime(millis) == FormatD(t.hours) + [':'] + (Pad2(t.minutes) + [':'] + Pad2(t.seconds));
      SplitAtSep(FormatD(t.hours), Pad2(t.minutes) + [':'] + Pad2(t.seconds), ':');
      SplitAtSep(Pad2(t.minutes), Pad2(t.seconds), ':');
    } else {
      SplitAtSep(Pad2(t.minutes), Pad2(t.seconds), ':');
    }
  }

  /** Truncation: 999 ms still reads "00:00", and one second reads "00:01". */
  lemma {:induction false} TruncatesBelowASecond()
    ensures FormatTime(999) == "00:00"
    ensures FormatTime(1000) == "00:01"
  {
    assert Div(999, 1000) == 0;
    assert Split(0) == Hms(0, 0, 0);
    assert Pad2(0) == "00";
    assert Div(1000, 1000) == 1;
    assert Split(1) == Hms(0, 0, 1);
    assert Pad2(1) == "01";
  }
}
