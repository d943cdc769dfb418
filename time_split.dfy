/**
 * The hours / minutes / seconds split that the source writes out four times
 * (the notification formatter, `formatTime`, `formatDuration` and the duration
 * dialog): `t / 3600`, `(t % 3600) / 60`, `t % 60`, with Kotlin's truncating
 * `/` and `%`.
 */
module TimeSplit {
  import opened JvmInt

  datatype Hms = Hms(hours: int, minutes: int, seconds: int)

  /** The dialog's "Set" recombination `h * 3600 + m * 60 + s`. */
  function Combine(t: Hms): int
  {
    t.hours * 3600 + t.minutes * 60 + t.seconds
  }

  /** Minutes and seconds are proper clock fields. */
  predicate IsClock(t: Hms)
  {
    t.hours >= 0 && 0 <= t.minutes < 60 && 0 <= t.seconds < 60
  }

  /** `t / 3600`, `(t % 3600) / 60`, `t % 60`. */
  function Split(totalSeconds: int): Hms
  {
    Hms(Div(totalSeconds, 3600), Div(Rem(totalSeconds, 3600), 60), Rem(totalSeconds, 60))
  }

  /** Splitting and recombining gives back the same count of seconds, for every
      input (truncating division keeps `a == b * (a / b) + a % b` for negatives
      too); for a non-negative count the fields are a proper clock reading, for a
      non-positive one no field is positive. */
  lemma SplitRoundTrip(totalSeconds: int)
    ensures Combine(Split(totalSeconds)) == totalSeconds
    ensures totalSeconds >= 0 ==> IsClock(Split(totalSeconds))
    ensures totalSeconds <= 0 ==> var t := Split(totalSeconds);
              t.hours <= 0 && t.minutes <= 0 && t.seconds <= 0
  {
    if totalSeconds >= 0 {
      SplitNonNegative(totalSeconds);
    } else {
      SplitNonNegative(-totalSeconds);
      SplitNegate(totalSeconds);
    }
  }

  /** For a non-negative count the split is Euclidean division. */
  lemma {:induction false} SplitNonNegative(totalSeconds: nat)
    ensures Combine(Split(totalSeconds)) == totalSeconds && IsClock(Split(totalSeconds))
  {
    var h, r := Div(totalSeconds, 3600), Rem(totalSeconds, 3600);
    DivOfNonNegative(totalSeconds, 3600);
    assert 0 <= r < 3600 && totalSeconds == 3600 * h + r;
    var m, s := Div(r, 60), Rem(r, 60);
    DivOfNonNegative(r, 60);
    assert 0 <= s < 60 && r == 60 * m + s;
    SecondsOfMinutes(60 * h + m, s);
    assert totalSeconds == 60 * (60 * h + m) + s;
    DivOfNonNegative(totalSeconds, 60);
    assert Rem(totalSeconds, 60) == s;
  }

  /** The seconds field of `k` minutes and `s` seconds. */
  lemma SecondsOfMinutes(k: int, s: int)
    requires 0 <= s < 60
    ensures (60 * k + s) % 60 == s
  {
  }

  /** A negative count splits into the negated fields of its magnitude. */
  lemma {:induction false} SplitNegate(totalSeconds: int)
    ensures var t, u := Split(totalSeconds), Split(-totalSeconds);
            t == Hms(-u.hours, -u.minutes, -u.seconds)
  {
    DivNegate(totalSeconds, 3600);
    DivNegate(Rem(-totalSeconds, 3600), 60);
    DivNegate(totalSeconds, 60);
  }

  /** Two proper clock readings of the same number of seconds are equal. */
  lemma {:induction false} ClockUnique(t: Hms, u: Hms)
    requires IsClock(t) && IsClock(u) && Combine(t) == Combine(u)
    ensures t == u
  {
    var rt, ru := t.minutes * 60 + t.seconds, u.minutes * 60 + u.seconds;
    assert 0 <= rt < 3600 && 0 <= ru < 3600;
    assert t.hours == u.hours;
    assert t.minutes == u.minutes;
  }

  /** A clock reading is determined by the number of seconds it stands for:
      `Split` inverts `Combine` on proper clock fields. */
  lemma {:induction false} SplitCombine(t: Hms)
    requires IsClock(t)
    ensures Split(Combine(t)) == t
  {
    SplitRoundTrip(Combine(t));
    ClockUnique(t, Split(Combine(t)));
  }
}
