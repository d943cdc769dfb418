/**
 * `VibrationHelper`: the closed registry of vibration patterns, each a timing
 * sequence `[delay, vibrate, pause, vibrate, ...]` (milliseconds) with a
 * `repeating` flag, and the `vibrate` / `cancel` contract on the device.
 * Continuous patterns loop until cancelled; auto-stop patterns have all their
 * repetitions baked into the array and play it once.
 */
module VibrationHelper {
  import opened Wrappers

  datatype VibrationPattern =
    | GentlePulse
    | QuickPulse
    | Wave
    | Escalating
    | GentleBells
    | TripleChime
    | FadeOut

  /** The enum constants in declaration order. */
  const AllPatterns: seq<VibrationPattern> :=
    [GentlePulse, QuickPulse, Wave, Escalating, GentleBells, TripleChime, FadeOut]

  /** The enum constant's `name`. */
  function Name(p: VibrationPattern): string
  {
    match p
    case GentlePulse => "GENTLE_PULSE"
    case QuickPulse => "QUICK_PULSE"
    case Wave => "WAVE"
    case Escalating => "ESCALATING"
    case GentleBells => "GENTLE_BELLS"
    case TripleChime => "TRIPLE_CHIME"
    case FadeOut => "FADE_OUT"
  }

  function DisplayName(p: VibrationPattern): string
  {
    match p
    case GentlePulse => "Gentle Pulse"
    case QuickPulse => "Quick Pulse"
    case Wave => "Wave"
    case Escalating => "Escalating"
    case GentleBells => "Gentle Bells"
    case TripleChime => "Triple Chime"
    case FadeOut => "Fade Out"
  }

  /** The `longArrayOf` timing tables. */
  function Timings(p: VibrationPattern): seq<int>
  {
    match p
    case GentlePulse => [0, 200, 300, 200, 300, 200, 600]
    case QuickPulse => [0, 80, 80, 80, 80, 80, 80, 80, 500]
    case Wave => [0, 100, 50, 150, 50, 200, 50, 250, 50, 300, 400]
    case Escalating => [0, 100, 200, 150, 200, 200, 200, 300, 200, 400, 400]
    case GentleBells =>
      [0, 120, 100, 120, 600,
          120, 100, 120, 600,
          120, 100, 120]
    case TripleChime =>
      [0, 150, 120, 150, 120, 150, 700,
          150, 120, 150, 120, 150, 700,
          150, 120, 150, 120, 150, 700,
          150, 120, 150, 120, 150, 700,
          150, 120, 150, 120, 150]
    case FadeOut => [0, 400, 300, 300, 300, 200, 300, 100]
  }

  function Repeating(p: VibrationPattern): bool
  {
    match p
    case GentlePulse => true
    case QuickPulse => true
    case Wave => true
    case Escalating => true
    case GentleBells => false
    case TripleChime => false
    case FadeOut => false
  }

  /** `repeatOverride ?: if (pattern.repeating) 0 else -1`. */
  function EffectiveRepeat(p: VibrationPattern, repeatOverride: Option<int>): (r: int)
    ensures repeatOverride.Some? ==> r == repeatOverride.value
    ensures repeatOverride.None? ==> (r == 0 <==> Repeating(p)) && (r == -1 <==> !Repeating(p))
  {
    match repeatOverride
    case Some(v) => v
    case None => if Repeating(p) then 0 else -1
  }

  /** What `VibrationEffect.createWaveform(timings, repeat)` accepts: non-negative
      timings, not all zero, and a repeat index that is -1 (play once) or a
      position inside the array. */
  predicate AcceptedWaveform(timings: seq<int>, repeat: int)
  {
    && (forall i :: 0 <= i < |timings| ==> timings[i] >= 0)
    && (exists i :: 0 <= i < |timings| && timings[i] > 0)
    && -1 <= repeat < |timings|
  }

  /** The vibrate segments: the entries at odd indices. */
  function VibrateSegments(timings: seq<int>): (v: seq<int>)
    ensures |v| == |timings| / 2
    ensures forall i :: 0 <= i < |v| ==> v[i] == timings[2 * i + 1]
  {
    seq(|timings| / 2, i requires 0 <= i < |timings| / 2 => timings[2 * i + 1])
  }

  predicate StrictlyIncreasing(s: seq<int>)
  {
    forall i :: 0 < i < |s| ==> s[i - 1] < s[i]
  }

  predicate StrictlyDecreasing(s: seq<int>)
  {
    forall i :: 0 < i < |s| ==> s[i - 1] > s[i]
  }

  /** Every table starts with a zero delay, has a vibrate segment, holds no
      negative entry, and ends on a trailing silence (even last index) exactly
      when the pattern is continuous, on a vibrate segment (odd last index)
      exactly when it stops by itself. */
  lemma TableShape(p: VibrationPattern)
    ensures var t := Timings(p);
            && |t| >= 2 && t[0] == 0
            && (forall i :: 0 <= i < |t| ==> t[i] >= 0)
            && (Repeating(p) <==> (|t| - 1) % 2 == 0)
  {
  }

  /** Without an override, every pattern's repeat mode is one the platform
      accepts: continuous ones loop from the start of the array, the others
      play once. */
  lemma {:induction false} DefaultRepeatAccepted(p: VibrationPattern)
    ensures AcceptedWaveform(Timings(p), EffectiveRepeat(p, None))
    ensures EffectiveRepeat(p, None) == (if Repeating(p) then 0 else -1)
  {
    TableShape(p);
    assert Timings(p)[1] > 0;
  }

  /** The settings screen's one-shot preview (`repeatOverride = -1`) is
      accepted for every pattern; an override past the table's end is not. */
  lemma {:induction false} OverrideAccepted(p: VibrationPattern, repeat: int)
    ensures AcceptedWaveform(Timings(p), EffectiveRepeat(p, Some(repeat)))
            <==> -1 <= repeat < |Timings(p)|
  {
    DefaultRepeatAccepted(p);
  }

  /** Exactly the first four patterns are continuous; the default pattern is
      the first of them. */
  lemma RepeatingPatterns(p: VibrationPattern)
    ensures Repeating(p) <==> p in {GentlePulse, QuickPulse, Wave, Escalating}
    ensures Repeating(AllPatterns[0]) && AllPatterns[0] == GentlePulse
  {
  }

  /** Gentle Bells is six soft taps of 120 ms, Triple Chime fifteen pulses of
      150 ms, Fade Out four bursts. */
  lemma {:induction false} FiniteSegments()
    ensures VibrateSegments(Timings(GentleBells)) == [120, 120, 120, 120, 120, 120]
    ensures VibrateSegments(Timings(TripleChime)) == seq(15, _ => 150)
    ensures |VibrateSegments(Timings(FadeOut))| == 4
  {
    var t := Timings(GentleBells);
    var b := VibrateSegments(t);
    assert b[0] == t[1] && b[1] == t[3] && b[2] == t[5] && b[3] == t[7] && b[4] == t[9] && b[5] == t[11];
    var u := Timings(TripleChime);
    var c := VibrateSegments(u);
    assert forall k :: 0 <= k < 15 ==> u[2 * k + 1] == 150;
  }

  /** Wave and Escalating lengthen every burst; Fade Out shortens every burst. */
  lemma {:induction false} SegmentTrends()
    ensures StrictlyIncreasing(VibrateSegments(Timings(Wave)))
    ensures StrictlyIncreasing(VibrateSegments(Timings(Escalating)))
    ensures StrictlyDecreasing(VibrateSegments(Timings(FadeOut)))
  {
    var w, e, f := Timings(Wave), Timings(Escalating), Timings(FadeOut);
    assert VibrateSegments(w) == [w[1], w[3], w[5], w[7], w[9]];
    assert VibrateSegments(e) == [e[1], e[3], e[5], e[7], e[9]];
    assert VibrateSegments(f) == [f[1], f[3], f[5], f[7]];
  }

  /** A waveform handed to the device. */
  datatype Waveform = Waveform(timings: seq<int>, repeat: int)

  /** The device vibrator; `effect` is the waveform it is playing, if any. The
      platform only ever plays a waveform it accepted. */
  class Vibrator {
    const hasVibrator: bool
    var effect: Option<Waveform>

    ghost predicate Valid()
      reads this
    {
      && (!hasVibrator ==> effect == None)
      && (effect.Some? ==> AcceptedWaveform(effect.value.timings, effect.value.repeat))
    }

    constructor (hasVibrator: bool)
      ensures this.hasVibrator == hasVibrator && effect == None && Valid()
    {
      this.hasVibrator := hasVibrator;
      effect := None;
    }

    /** `vibrate(context, pattern = GENTLE_PULSE, repeatOverride = null)`: without
        a vibrator nothing happens; otherwise the pattern's waveform replaces
        whatever was playing. `createWaveform` throws `IllegalArgumentException`
        for a repeat index it does not accept, and `vibrate` does not catch it:
        `thrown` reports that exception, and then nothing changes. */
    method Vibrate(pattern: VibrationPattern := GentlePulse, repeatOverride: Option<int> := None)
      returns (thrown: bool)
      requires Valid()
      modifies this
      ensures Valid()
      ensures var repeat := EffectiveRepeat(pattern, repeatOverride);
              && (thrown <==> hasVibrator && !AcceptedWaveform(Timings(pattern), repeat))
              && (hasVibrator && !thrown ==> effect == Some(Waveform(Timings(pattern), repeat)))
      ensures !hasVibrator || thrown ==> effect == old(effect)
    {
      var repeat := EffectiveRepeat(pattern, repeatOverride);
      if !hasVibrator {
        return false;
      }
      TableShape(pattern);
      DefaultRepeatAccepted(pattern);
      if !(-1 <= repeat < |Timings(pattern)|) {
        return true;
      }
      effect := Some(Waveform(Timings(pattern), repeat));
      thrown := false;
    }

    /** `cancel`: stops whatever is playing; harmless when nothing is. */
    method Cancel()
      requires Valid()
      modifies this
      ensures Valid() && effect == None
    {
      effect := None;
    }
  }
}
