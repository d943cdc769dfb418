/**
 * `DurationPicker.kt`: the "Custom" button's selection test and caption, the
 * human-readable `formatDuration`, the `NumberPicker` step rule and the
 * hours / minutes / seconds dialog with its "Set" recombination.
 */
module DurationPicker {
  import opened Wrappers
  import opened JvmInt
  import opened Text
  import opened TimeSplit
  import TimerBridge

  // ---- the custom-duration button ------------------------------------------

  /** The presets the button compares against (5, 15, 30 and 60 minutes). */
  const PresetSeconds: seq<Int32> := [5 * 60, 15 * 60, 30 * 60, 60 * 60]

  /** Seconds the dialog opens at when nothing is selected. */
  const DefaultDialogSeconds: Int32 := 10 * 60

  const CustomCaption := "Custom"

  /** A selection counts as custom when there is one and it is no preset. */
  predicate IsCustomSelection(current: Option<Int32>)
  {
    current.Some? && current.value !in PresetSeconds
  }

  /** The dialog's `initialTotalSeconds`: the selection, or ten minutes. */
  function InitialDialogSeconds(current: Option<Int32>): (t: Int32)
    ensures current.Some? ==> t == current.value
    ensures current.None? ==> t == 600
  {
    current.GetOr(DefaultDialogSeconds)
  }

  /** The button's caption: the custom selection's duration, else "Custom". */
  function ButtonCaption(current: Option<Int32>): string
  {
    if IsCustomSelection(current) then DurationText(Split(current.value)) else CustomCaption
  }

  /** The button's presets are exactly the quick-timer choices, so a pick made
      with a quick-timer button never shows as custom, and any other pick does. */
  lemma {:induction false} CustomIffNotQuickTimer(s: Int32)
    ensures IsCustomSelection(Some(s)) <==> s !in TimerBridge.QuickTimerSeconds
    ensures !IsCustomSelection(None)
    ensures IsCustomSelection(Some(s)) <==> ButtonCaption(Some(s)) != CustomCaption
  {
    assert PresetSeconds == TimerBridge.QuickTimerSeconds;
    if IsCustomSelection(Some(s)) {
      var t := Split(s);
      var text := DurationText(t);
      assert text[0] != 'C' by {
        if Parts(t) != [] {
          JoinStartsWithFirst(Parts(t), ' ');
        }
      }
    }
  }

  // ---- formatDuration -------------------------------------------------------

  /** Unit letters, in the order the text lists them. */
  const Units := "hms"

  /** The non-zero components of `t`, each as digits followed by its unit, in
      hours, minutes, seconds order. */
  function Parts(t: Hms): seq<string>
  {
    Part(t.hours, 'h') + Part(t.minutes, 'm') + Part(t.seconds, 's')
  }

  /** One component: its digits and unit when positive, nothing otherwise. */
  function Part(v: int, unit: char): (p: seq<string>)
    ensures |p| <= 1
  {
    if v > 0 then [Dec(v) + [unit]] else []
  }

  /** The text of a duration: its non-zero components separated by single
      spaces, or "0s" when none is positive. */
  function DurationText(t: Hms): string
  {
    if Parts(t) == [] then "0s" else Join(Parts(t), ' ')
  }

  /** `formatDuration`: split the seconds and append each positive component,
      preceded by a space unless the buffer is still empty; "0s" if nothing was
      appended. */
  method FormatDuration(totalSeconds: Int32) returns (text: string)
    ensures text == DurationText(Split(totalSeconds))
  {
    var hours := Div(totalSeconds, 3600);
    var mins := Div(Rem(totalSeconds, 3600), 60);
    var secs := Rem(totalSeconds, 60);
    ghost var t := Hms(hours, mins, secs);
    ghost var hp, mp, sp := Part(hours, 'h'), Part(mins, 'm'), Part(secs, 's');

    text := "";
    if hours > 0 {
      text := text + Dec(hours) + "h";
    }
    assert text == Join(hp, ' ');
    if mins > 0 {
      if |text| > 0 {
        text := text + " ";
      }
      text := text + Dec(mins) + "m";
    }
    JoinAppend(hp, mp, ' ');
    assert text == Join(hp + mp, ' ');
    if secs > 0 {
      if |text| > 0 {
        text := text + " ";
      }
      text := text + Dec(secs) + "s";
    }
    JoinAppend(hp + mp, sp, ' ');
    assert text == Join(hp + mp + sp, ' ');
    assert Parts(t) == hp + mp + sp;
    if |text| == 0 {
      text := "0s";
    }
  }

  /** The first character of a join is the first character of its first part. */
  lemma JoinStartsWithFirst(parts: seq<string>, sep: char)
    requires |parts| >= 1 && |parts[0]| >= 1
    ensures |Join(parts, sep)| >= 1 && Join(parts, sep)[0] == parts[0][0]
  {
  }

  /** Appending at most one non-empty part to a join: the buffer is extended by
      a separator only when it already holds something. */
  lemma {:induction false} JoinAppend(ps: seq<string>, q: seq<string>, sep: char)
    requires |q| <= 1 && forall i :: 0 <= i < |q| ==> |q[i]| >= 1
    requires forall i :: 0 <= i < |ps| ==> |ps[i]| >= 1
    ensures q == [] ==> Join(ps + q, sep) == Join(ps, sep)
    ensures q != [] ==>
      Join(ps + q, sep) == (if |Join(ps, sep)| > 0 then Join(ps, sep) + [sep] else Join(ps, sep)) + q[0]
    decreases |ps|
  {
    if q == [] {
      assert ps + q == ps;
    } else if |ps| == 0 {
      assert ps + q == q;
    } else if |ps| == 1 {
      assert ps + q == [ps[0], q[0]];
      assert Join([q[0]], sep) == q[0];
    } else {
      assert (ps + q)[1..] == ps[1..] + q;
      JoinAppend(ps[1..], q, sep);
      JoinNonEmpty(ps[1..], sep);
    }
  }

  lemma JoinNonEmpty(ps: seq<string>, sep: char)
    requires |ps| >= 1 && |ps[0]| >= 1
    ensures |Join(ps, sep)| > 0
  {
  }

  // ---- reading a duration text back ------------------------------------------

  /** Position of a unit letter in `Units`, -1 for any other character. */
  function UnitIndex(c: char): (u: int)
    ensures -1 <= u < 3
    ensures u >= 0 ==> Units[u] == c
  {
    if c == 'h' then 0 else if c == 'm' then 1 else if c == 's' then 2 else -1
  }

  /** `acc` with component `u` (0 hours, 1 minutes, 2 seconds) set to `v`. */
  function WithComponent(acc: Hms, u: int, v: int): Hms
    requires 0 <= u < 3
  {
    if u == 0 then acc.(hours := v) else if u == 1 then acc.(minutes := v) else acc.(seconds := v)
  }

  /** Reads tokens of the form digits-then-unit, each with a positive number
      without leading zeros and with units strictly in h, m, s order. */
  function ParseTokens(tokens: seq<string>, next: int, acc: Hms): Option<Hms>
    decreases |tokens|
  {
    if tokens == [] then Some(acc)
    else
      var tok := tokens[0];
      if |tok| < 2 then None
      else
        var digits, u := tok[..|tok| - 1], UnitIndex(tok[|tok| - 1]);
        if u < 0 || u < next || !AllDigits(digits) || digits[0] == '0' then None
        else ParseTokens(tokens[1..], u + 1, WithComponent(acc, u, DigitsValue(digits)))
  }

  /** Reads a duration text back into its components. */
  function ParseDuration(s: string): Option<Hms>
  {
    if s == "0s" then Some(Hms(0, 0, 0)) else ParseTokens(SplitOn(s, ' '), 0, Hms(0, 0, 0))
  }

  /** Reading one positive component off the front of the token list. */
  lemma {:induction false} ParseStep(v: nat, unit: char, rest: seq<string>, next: int, acc: Hms)
    requires v > 0 && 0 <= UnitIndex(unit) && next <= UnitIndex(unit)
    ensures ParseTokens([Dec(v) + [unit]] + rest, next, acc)
         == ParseTokens(rest, UnitIndex(unit) + 1, WithComponent(acc, UnitIndex(unit), v))
  {
    var tokens := [Dec(v) + [unit]] + rest;
    var tok := tokens[0];
    assert tok[..|tok| - 1] == Dec(v);
    assert tokens[1..] == rest;
    DecRoundTrip(v);
  }

  /** A component's text is non-empty, starts with a non-zero digit and holds
      no space. */
  lemma PartIsToken(v: int, unit: char)
    requires unit != ' '
    ensures forall p <- Part(v, unit) :: |p| >= 1 && p[0] != '0' && ' ' !in p
  {
    if v > 0 {
      DigitsHaveNo(Dec(v), ' ');
    }
  }

  /** The parts of a duration are non-empty, start with a non-zero digit and
      hold no space. */
  lemma {:induction false} PartsAreTokens(t: Hms)
    ensures forall i :: 0 <= i < |Parts(t)| ==>
      |Parts(t)[i]| >= 1 && Parts(t)[i][0] != '0' && ' ' !in Parts(t)[i]
  {
    PartIsToken(t.hours, 'h');
    PartIsToken(t.minutes, 'm');
    PartIsToken(t.seconds, 's');
    forall i | 0 <= i < |Parts(t)| ensures Parts(t)[i] in Part(t.hours, 'h') + Part(t.minutes, 'm') + Part(t.seconds, 's') {
    }
  }

  /** Reading the seconds part, once hours and minutes are read. */
  lemma {:induction false} ParseSecondsPart(t: Hms, next: int, acc: Hms)
    requires t.seconds >= 0 && next <= 2 && acc == t.(seconds := 0)
    ensures ParseTokens(Part(t.seconds, 's'), next, acc) == Some(t)
  {
    if t.seconds > 0 {
      ParseStep(t.seconds, 's', [], next, acc);
      assert Part(t.seconds, 's') == [Dec(t.seconds) + ['s']] + [];
    }
  }

  /** Reading the minutes and seconds parts, once hours are read. */
  lemma {:induction false} ParseMinutesPart(t: Hms, next: int, acc: Hms)
    requires t.minutes >= 0 && t.seconds >= 0 && next <= 1 && acc == t.(minutes := 0, seconds := 0)
    ensures ParseTokens(Part(t.minutes, 'm') + Part(t.seconds, 's'), next, acc) == Some(t)
  {
    var sp := Part(t.seconds, 's');
    if t.minutes > 0 {
      ParseStep(t.minutes, 'm', sp, next, acc);
      assert Part(t.minutes, 'm') + sp == [Dec(t.minutes) + ['m']] + sp;
      ParseSecondsPart(t, 2, acc.(minutes := t.minutes));
    } else {
      assert Part(t.minutes, 'm') + sp == sp;
      ParseSecondsPart(t, next, acc);
    }
  }

  /** Reading the parts of a non-negative duration gives the duration. */
  lemma {:induction false} ParseParts(t: Hms)
    requires t.hours >= 0 && t.minutes >= 0 && t.seconds >= 0
    ensures ParseTokens(Parts(t), 0, Hms(0, 0, 0)) == Some(t)
  {
    var zero := Hms(0, 0, 0);
    var rest := Part(t.minutes, 'm') + Part(t.seconds, 's');
    if t.hours > 0 {
      ParseStep(t.hours, 'h', rest, 0, zero);
      assert Parts(t) == [Dec(t.hours) + ['h']] + rest;
      ParseMinutesPart(t, 1, zero.(hours := t.hours));
    } else {
      assert Parts(t) == rest;
      ParseMinutesPart(t, 0, zero);
    }
  }

  /** Every non-negative duration reads back from its text: no information is
      lost by leaving out zero components. */
  lemma {:induction false} DurationTextRoundTrip(t: Hms)
    requires t.hours >= 0 && t.minutes >= 0 && t.seconds >= 0
    ensures ParseDuration(DurationText(t)) == Some(t)
  {
    var parts := Parts(t);
    if parts == [] {
      assert t == Hms(0, 0, 0);
    } else {
      PartsAreTokens(t);
      JoinStartsWithFirst(parts, ' ');
      SplitJoin(parts, ' ');
      ParseParts(t);
    }
  }

  /** `formatDuration` of a non-negative count reads back as that count; every
      non-positive count (an `Int` the picker never produces) shows "0s". */
  lemma {:induction false} FormatDurationRoundTrip(totalSeconds: int)
    ensures totalSeconds >= 0 ==>
      ParseDuration(DurationText(Split(totalSeconds))).Some?
      && Combine(ParseDuration(DurationText(Split(totalSeconds))).value) == totalSeconds
    ensures totalSeconds <= 0 ==> DurationText(Split(totalSeconds)) == "0s"
  {
    SplitRoundTrip(totalSeconds);
    if totalSeconds >= 0 {
      DurationTextRoundTrip(Split(totalSeconds));
    }
  }

  /** The text of a clock reading, for the documented examples. */
  lemma {:induction false} SplitOfExample(totalSeconds: int, h: int, m: int, sec: int)
    requires 0 <= m < 60 && 0 <= sec < 60 && h >= 0
    requires totalSeconds == h * 3600 + m * 60 + sec
    ensures Split(totalSeconds) == Hms(h, m, sec)
  {
    SplitCombine(Hms(h, m, sec));
  }

  /** The documented examples: "5m", "1h 30m", "2m 15s", "45s", "1h 5m 30s". */
  lemma DocumentedExamples()
    ensures DurationText(Split(300)) == "5m"
    ensures DurationText(Split(5400)) == "1h 30m"
    ensures DurationText(Split(135)) == "2m 15s"
    ensures DurationText(Split(45)) == "45s"
    ensures DurationText(Split(3930)) == "1h 5m 30s"
  {
    ExampleFiveMinutes();
    ExampleHourAndAHalf();
    ExampleMinutesAndSeconds();
    ExampleSecondsOnly();
    ExampleAllThree();
  }

  /** The single digits used in the examples. */
  lemma DecSmall()
    ensures Dec(0) == "0" && Dec(1) == "1" && Dec(2) == "2" && Dec(3) == "3"
    ensures Dec(4) == "4" && Dec(5) == "5"
  {
  }

  lemma ExampleFiveMinutes()
    ensures DurationText(Split(300)) == "5m"
  {
    SplitOfExample(300, 0, 5, 0);
    DecSmall();
    assert Dec(5) + ['m'] == "5m";
  }

  lemma ExampleHourAndAHalf()
    ensures DurationText(Split(5400)) == "1h 30m"
  {
    SplitOfExample(5400, 1, 30, 0);
    DecSmall();
    assert Dec(30) == Dec(3) + [DigitChar(0)] == "30";
    assert Dec(1) + ['h'] == "1h" && Dec(30) + ['m'] == "30m";
  }

  lemma ExampleMinutesAndSeconds()
    ensures DurationText(Split(135)) == "2m 15s"
  {
    SplitOfExample(135, 0, 2, 15);
    DecSmall();
    assert Dec(15) == Dec(1) + [DigitChar(5)] == "15";
    assert Dec(2) + ['m'] == "2m" && Dec(15) + ['s'] == "15s";
  }

  lemma ExampleSecondsOnly()
    ensures DurationText(Split(45)) == "45s"
  {
    SplitOfExample(45, 0, 0, 45);
    SecondsOnlyText(45);
    DecFortyFive();
  }

  lemma DecFortyFive()
    ensures Dec(45) + "s" == "45s"
  {
    DecSmall();
    assert Dec(45) == Dec(4) + [DigitChar(5)];
  }

  lemma SecondsOnlyText(sec: int)
    requires sec > 0
    ensures DurationText(Hms(0, 0, sec)) == Dec(sec) + "s"
  {
    assert Parts(Hms(0, 0, sec)) == [Dec(sec) + "s"];
  }

  lemma ExampleAllThree()
    ensures DurationText(Split(3930)) == "1h 5m 30s"
  {
    SplitOfExample(3930, 1, 5, 30);
    DecSmall();
    assert Dec(30) == Dec(3) + [DigitChar(0)] == "30";
    assert Dec(1) + ['h'] == "1h" && Dec(5) + ['m'] == "5m" && Dec(30) + ['s'] == "30s";
    assert Join(["5m", "30s"], ' ') == "5m 30s";
  }

  // ---- NumberPicker ------------------------------------------------------------

  datatype IntRange = IntRange(first: int, last: int)
  {
    predicate Contains(v: int) { first <= v <= last }
  }

  const HoursRange := IntRange(0, 12)
  const MinutesRange := IntRange(0, 59)
  const SecondsRange := IntRange(0, 59)

  /** The up arrow: one more, only below `range.last`. */
  function StepUp(value: int, range: IntRange): int
  {
    if value < range.last then value + 1 else value
  }

  /** The down arrow: one less, only above `range.first`. */
  function StepDown(value: int, range: IntRange): int
  {
    if value > range.first then value - 1 else value
  }

  /** A value in range stays in range; each arrow moves by exactly one unless
      at its end of the range, and the two arrows undo each other. */
  lemma {:induction false} StepsStayInRange(value: int, range: IntRange)
    requires range.Contains(value)
    ensures range.Contains(StepUp(value, range)) && range.Contains(StepDown(value, range))
    ensures StepUp(value, range) == value + 1 <==> value != range.last
    ensures StepDown(value, range) == value - 1 <==> value != range.first
    ensures value != range.last ==> StepDown(StepUp(value, range), range) == value
    ensures value != range.first ==> StepUp(StepDown(value, range), range) == value
  {
  }

  // ---- the dialog ----------------------------------------------------------------

  /** All three wheels inside their ranges. */
  predicate InRanges(t: Hms)
  {
    HoursRange.Contains(t.hours) && MinutesRange.Contains(t.minutes) && SecondsRange.Contains(t.seconds)
  }

  /** The dialog opens with every wheel in range exactly when the initial
      seconds lie in [0, 46799]. */
  lemma {:induction false} OpensInRange(initialTotalSeconds: int)
    ensures InRanges(Split(initialTotalSeconds)) <==> 0 <= initialTotalSeconds <= 46799
  {
    SplitRoundTrip(initialTotalSeconds);
  }

  /** Totals the dialog can confirm: every reading of the wheels is in
      [0, 46799], 0 only for all-zero wheels, and the largest, 12:59:59, is
      above the 43200-second cap that `addSeconds` applies. */
  lemma {:induction false} ConfirmableTotals(t: Hms)
    requires InRanges(t)
    ensures 0 <= Combine(t) <= 46799
    ensures Combine(t) == 0 <==> t == Hms(0, 0, 0)
    ensures Combine(t) == 46799 <==> t == Hms(12, 59, 59)
    ensures Combine(Hms(12, 59, 59)) > TimerBridge.MaxSelection
  {
    if Combine(t) == 46799 {
      ClockUnique(t, Hms(12, 59, 59));
    }
  }

  /** "Set" hands a total on only when it is positive. */
  function Confirmed(total: Int32): (r: Option<Int32>)
  {
    if total > 0 then Some(total) else None
  }

  /** In-range wheels never overflow `Int`. */
  lemma {:induction false} NoOverflowInRange(t: Hms)
    requires InRanges(t)
    ensures Wrap(Combine(t)) == Combine(t)
  {
    ConfirmableTotals(t);
  }

  /** What "Set" hands on for in-range wheels. */
  lemma {:induction false} SetInRange(t: Hms)
    requires InRanges(t)
    ensures Confirmed(Combine(t)).Some? <==> t != Hms(0, 0, 0)
    ensures Confirmed(Combine(t)).Some? ==> 1 <= Combine(t) <= 46799
  {
    ConfirmableTotals(t);
  }

  datatype Wheel = HoursWheel | MinutesWheel | SecondsWheel

  class DurationPickerDialog {
    var hours: int
    var minutes: int
    var seconds: int

    function Reading(): Hms
      reads this
    {
      Hms(hours, minutes, seconds)
    }

    /** The dialog's wheels start at the split of the initial seconds. */
    constructor (initialTotalSeconds: Int32)
      ensures Reading() == Split(initialTotalSeconds)
      ensures Combine(Reading()) == initialTotalSeconds
      ensures InRanges(Reading()) <==> 0 <= initialTotalSeconds <= 46799
    {
      hours := Div(initialTotalSeconds, 3600);
      minutes := Div(Rem(initialTotalSeconds, 3600), 60);
      seconds := Rem(initialTotalSeconds, 60);
      SplitRoundTrip(initialTotalSeconds);
      OpensInRange(initialTotalSeconds);
    }

    /** The up arrow of one wheel. */
    method Increment(wheel: Wheel)
      modifies this
      ensures wheel == HoursWheel ==> Reading() == old(Reading()).(hours := StepUp(old(hours), HoursRange))
      ensures wheel == MinutesWheel ==> Reading() == old(Reading()).(minutes := StepUp(old(minutes), MinutesRange))
      ensures wheel == SecondsWheel ==> Reading() == old(Reading()).(seconds := StepUp(old(seconds), SecondsRange))
      ensures old(InRanges(Reading())) ==> InRanges(Reading())
    {
      match wheel
      case HoursWheel =>
        if hours < HoursRange.last { hours := hours + 1; }
      case MinutesWheel =>
        if minutes < MinutesRange.last { minutes := minutes + 1; }
      case SecondsWheel =>
        if seconds < SecondsRange.last { seconds := seconds + 1; }
    }

    /** The down arrow of one wheel. */
    method Decrement(wheel: Wheel)
      modifies this
      ensures wheel == HoursWheel ==> Reading() == old(Reading()).(hours := StepDown(old(hours), HoursRange))
      ensures wheel == MinutesWheel ==> Reading() == old(Reading()).(minutes := StepDown(old(minutes), MinutesRange))
      ensures wheel == SecondsWheel ==> Reading() == old(Reading()).(seconds := StepDown(old(seconds), SecondsRange))
      ensures old(InRanges(Reading())) ==> InRanges(Reading())
    {
      match wheel
      case HoursWheel =>
        if hours > HoursRange.first { hours := hours - 1; }
      case MinutesWheel =>
        if minutes > MinutesRange.first { minutes := minutes - 1; }
      case SecondsWheel =>
        if seconds > SecondsRange.first { seconds := seconds - 1; }
    }

    /** "Set": recombine the wheels (in `Int` arithmetic) and confirm only a
        positive total. With the wheels in range the total is confirmed exactly
        when some wheel is non-zero, and it lies in [1, 46799]. */
    method Set() returns (confirmed: Option<Int32>)
      ensures confirmed == Confirmed(Wrap(Combine(Reading())))
      ensures InRanges(Reading()) ==>
        (confirmed.Some? <==> Reading() != Hms(0, 0, 0))
        && (confirmed.Some? ==> 1 <= confirmed.value <= 46799 && confirmed.value == Combine(Reading()))
    {
      var totalSeconds := Wrap(Combine(Reading()));
      if InRanges(Reading()) {
        NoOverflowInRange(Reading());
        SetInRange(Reading());
      }
      if totalSeconds > 0 {
        confirmed := Some(totalSeconds);
      } else {
        confirmed := None;
      }
    }
  }
}
