/**
 * The countdown state machine of `TimerForegroundService`: the service fields
 * `countDownTimer`, `totalMillis`, `pausedRemainingMillis`, the process-wide
 * `_timerState` snapshot it publishes, and the notification it posts.
 *
 * Android's `CountDownTimer` is abstracted to the flag `active` (a ticker that
 * will still deliver events). Its `onTick` / `onFinish` callbacks are the
 * methods `Tick` and `Finish`, which do nothing once the ticker was cancelled:
 * a cancelled timer delivers nothing, so no tick is applied after a stop.
 */
module TimerService {
  import opened Wrappers
  import opened JvmInt
  import opened Text
  import opened TimeSplit
  import CircularTimer

  /** `ServiceTimerState`, the snapshot observed by the UI side. */
  datatype ServiceTimerState = ServiceTimerState(
    totalTimeMillis: int,
    remainingTimeMillis: int,
    isRunning: bool,
    isPaused: bool,
    isCompleted: bool)

  /** The data class defaults, published before any command arrives. */
  const InitialState := ServiceTimerState(0, 0, false, false, false)

  /** The snapshot published when counting starts and on every tick. */
  function Counting(total: int, remaining: int): (s: ServiceTimerState)
  {
    ServiceTimerState(total, remaining, true, false, false)
  }

  /** The snapshot published by `onFinish`. */
  function Finished(total: int): (s: ServiceTimerState)
  {
    ServiceTimerState(total, 0, false, false, true)
  }

  /** The snapshot published by `stopCountdown`. */
  function Stopped(total: int): (s: ServiceTimerState)
  {
    ServiceTimerState(total, total, false, false, false)
  }

  /** An inbound intent: its action and, for START, the two optional extras. */
  datatype Command =
    | Start(totalMillis: Option<int>, remainingMillis: Option<int>)
    | Pause
    | Resume
    | Stop
    | Other  // a null intent or an unknown action

  // ---- notification --------------------------------------------------------

  datatype NotificationAction = ResumeAction | PauseAction | StopAction

  /** `setProgress(max, progress, false)`. */
  datatype Progress = Progress(max: Int32, current: Int32)

  datatype Notification = Notification(
    ongoing: bool,
    title: string,
    text: string,
    progress: Option<Progress>,
    actions: seq<NotificationAction>)

  const MeditatingTitle := "Stillness \U{2014} Meditating"
  const CompleteTitle := "Session Complete"
  const CompleteText := "Your meditation session has ended"
  const RemainingSuffix := " remaining"

  /** The command each notification button sends back to the service. */
  function ActionCommand(a: NotificationAction): Command
  {
    match a
    case ResumeAction => Resume
    case PauseAction => Pause
    case StopAction => Stop
  }

  /** `(millis + 999) / 1000`: whole seconds, rounded up for non-negative input. */
  function CeilSeconds(millis: int): int
  {
    Div(millis + 999, 1000)
  }

  lemma {:induction false} CeilSecondsIsCeiling(millis: int)
    requires millis >= 0
    ensures var c := CeilSeconds(millis);
            (c - 1) * 1000 < millis <= c * 1000
    ensures millis > 0 ==> CeilSeconds(millis) >= 1
  {
    DivOfNonNegative(millis + 999, 1000);
  }

  /** `formatMillisForNotification`. */
  function NotificationTimeText(millis: int): string
  {
    NotificationClock(Split(CeilSeconds(millis))) + RemainingSuffix
  }

  /** `"%d:%02d:%02d"` with hours, `"%d:%02d"` with minutes, else `"0:%02d"`. */
  function NotificationClock(t: Hms): string
  {
    if t.hours > 0 then FormatD(t.hours) + ":" + Pad2(t.minutes) + ":" + Pad2(t.seconds)
    else if t.minutes > 0 then FormatD(t.minutes) + ":" + Pad2(t.seconds)
    else "0:" + Pad2(t.seconds)
  }

  /** Reads a notification time text back to its number of seconds. */
  function ParseNotificationTime(s: string): Option<nat>
  {
    var n := |RemainingSuffix|;
    if |s| >= n && s[|s| - n..] == RemainingSuffix then CircularTimer.ParseClock(s[..|s| - n])
    else None
  }

  lemma {:induction false} NotificationClockRoundTrip(t: Hms)
    requires IsClock(t)
    ensures CircularTimer.ParseClock(NotificationClock(t)) == Some(Combine(t))
  {
    if t.hours > 0 {
      CircularTimer.ParseClockText(t, true);
    } else if t.minutes > 0 {
      CircularTimer.ParseClockText(t, false);
    } else {
      SecondsOnlyClock(t.seconds);
      assert t == Hms(0, 0, t.seconds);
    }
  }

  /** The "0:SS" branch reads back as its seconds. */
  lemma {:induction false} SecondsOnlyClock(seconds: int)
    requires 0 <= seconds < 60
    ensures CircularTimer.ParseClock("0:" + Pad2(seconds)) == Some(seconds)
  {
    var zero := "0";
    assert AllDigits(zero) && DigitsValue(zero) == 0;
    assert "0:" + Pad2(seconds) == zero + ":" + Pad2(seconds);
    CircularTimer.ParseTwoFields(zero, Pad2(seconds));
  }

  /** The suffix is stripped before the clock is read. */
  lemma {:induction false} StripSuffix(clock: string)
    ensures ParseNotificationTime(clock + RemainingSuffix) == CircularTimer.ParseClock(clock)
  {
    var text := clock + RemainingSuffix;
    assert text[|text| - |RemainingSuffix|..] == RemainingSuffix;
    assert text[..|text| - |RemainingSuffix|] == clock;
  }

  /** The notification shows the remaining time rounded UP to whole seconds, so
      a positive remaining time never reads as zero seconds. */
  lemma {:induction false} NotificationTimeRoundTrip(millis: int)
    requires millis >= 0
    ensures ParseNotificationTime(NotificationTimeText(millis)) == Some(CeilSeconds(millis))
    ensures millis > 0 ==> CeilSeconds(millis) >= 1
  {
    var secs := CeilSeconds(millis);
    CeilSecondsIsCeiling(millis);
    SplitRoundTrip(secs);
    NotificationClockRoundTrip(Split(secs));
    StripSuffix(NotificationClock(Split(secs)));
  }

  /** The on-screen clock truncates and the notification rounds up: for a
      positive remaining time they differ by one second exactly when it is not a
      whole number of seconds. */
  lemma {:induction false} ScreenAndNotificationSeconds(millis: int)
    requires millis > 0
    ensures CircularTimer.ParseClock(CircularTimer.FormatTime(millis)) == Some(millis / 1000)
    ensures ParseNotificationTime(NotificationTimeText(millis))
         == Some(if millis % 1000 == 0 then millis / 1000 else millis / 1000 + 1)
  {
    CircularTimer.FormatTimeRoundTrip(millis);
    NotificationTimeRoundTrip(millis);
    CeilIsFloorPlusOne(millis);
  }

  lemma {:induction false} CeilIsFloorPlusOne(millis: int)
    requires millis >= 0
    ensures CeilSeconds(millis) == if millis % 1000 == 0 then millis / 1000 else millis / 1000 + 1
  {
    CeilSecondsIsCeiling(millis);
    var c, f := CeilSeconds(millis), millis / 1000;
    assert f * 1000 <= millis < f * 1000 + 1000;
    if millis % 1000 == 0 {
      assert millis == f * 1000;
    } else {
      assert f * 1000 < millis;
    }
  }

  /** The progress bar: `totalSec = (total / 1000).toInt()`, progress
      `totalSec - remainSec` in `Int` arithmetic. */
  function ProgressBar(totalMillis: int, remainingMillis: int): Progress
  {
    var totalSec := Wrap(Div(totalMillis, 1000));
    var remainSec := Wrap(Div(remainingMillis, 1000));
    Progress(totalSec, Wrap(totalSec - remainSec))
  }

  /** With a remaining time inside the session, the bar is partly filled:
      its maximum is the total in whole seconds and its value lies in [0, max]. */
  lemma {:induction false} ProgressWithinBar(totalMillis: int, remainingMillis: int)
    requires 0 <= remainingMillis <= totalMillis && totalMillis / 1000 <= IntMax
    ensures var p := ProgressBar(totalMillis, remainingMillis);
            p.max == totalMillis / 1000 && 0 <= p.current <= p.max
            && p.current == totalMillis / 1000 - remainingMillis / 1000
  {
    DivOfNonNegative(totalMillis, 1000);
    DivOfNonNegative(remainingMillis, 1000);
    assert remainingMillis / 1000 <= totalMillis / 1000;
  }

  /** The arguments of one `buildNotification` call: the service's `totalMillis`
      at that moment and the call's own parameters. */
  datatype NotificationRequest = NotificationRequest(
    totalMillis: int, remainingMillis: int, isPaused: bool, completed: bool)

  /** The notification a request produces. */
  function Render(q: NotificationRequest): Notification
  {
    BuildNotification(q.totalMillis, q.remainingMillis, q.isPaused, q.completed)
  }

  /** `buildNotification(remainingMillis, isPaused, completed)` for the service's
      current `totalMillis`. */
  function BuildNotification(totalMillis: int, remainingMillis: int, isPaused: bool, completed: bool): Notification
  {
    if completed then
      Notification(false, CompleteTitle, CompleteText, None, [])
    else
      Notification(true, MeditatingTitle, NotificationTimeText(remainingMillis),
                   Some(ProgressBar(totalMillis, remainingMillis)),
                   [if isPaused then ResumeAction else PauseAction, StopAction])
  }

  /** A running session's notification is ongoing and offers Stop plus exactly
      one of Resume (when paused) and Pause (otherwise); a completed one offers
      nothing and can be swiped away. */
  lemma {:induction false} NotificationActions(totalMillis: int, remainingMillis: int, isPaused: bool, completed: bool)
    ensures var n := BuildNotification(totalMillis, remainingMillis, isPaused, completed);
            && n.ongoing == !completed
            && (completed ==> n.actions == [] && n.progress == None)
            && (!completed ==>
                  && StopAction in n.actions
                  && (ResumeAction in n.actions <==> isPaused)
                  && (PauseAction in n.actions <==> !isPaused)
                  && |n.actions| == 2)
  {
  }

  /** What `CountDownTimer.start()` posts by itself: nothing for a positive
      time, and for nothing to count the completed notification of the
      `onFinish` it runs at once. */
  function FinishedAtStart(totalMillis: int, startMillis: int): (r: seq<NotificationRequest>)
    ensures |r| <= 1
    ensures r == [] <==> startMillis > 0
    ensures forall q :: q in r ==> q.completed && q.remainingMillis == 0 && q.totalMillis == totalMillis
  {
    if startMillis > 0 then [] else [NotificationRequest(totalMillis, 0, false, true)]
  }

  // ---- the service ---------------------------------------------------------

  class TimerForegroundService {
    /** `countDownTimer` is live: it has been started and neither cancelled nor finished. */
    var active: bool
    var totalMillis: int
    var pausedRemainingMillis: int
    /** `_timerState.value`. */
    var timerState: ServiceTimerState
    /** Every notification handed to `startForeground` or `notify`, in order, as
        the request it was built from (see `Render`). */
    var posted: seq<NotificationRequest>

    /** The flag invariant: a live ticker means the published snapshot says
        "running and not paused"; such a snapshot without a live ticker is left
        only by a countdown started with nothing to count (see `StartCountdown`)
        and has no time left; a paused snapshot carries the saved remaining
        time; a completed one has none left. */
    ghost predicate Valid()
      reads this
    {
      && timerState.totalTimeMillis == totalMillis
      && (active ==> timerState.isRunning && !timerState.isPaused)
      && (timerState.isRunning && !timerState.isPaused && !active ==> timerState.remainingTimeMillis <= 0)
      && (active ==> !timerState.isCompleted)
      && (timerState.isPaused ==> timerState.isRunning)
      && (timerState.isPaused ==> pausedRemainingMillis == timerState.remainingTimeMillis)
      && (timerState.isCompleted ==> timerState.remainingTimeMillis == 0)
    }

    /** The published remaining time lies within the session, and so does the
        saved one. */
    ghost predicate InBounds()
      reads this
    {
      && 0 <= timerState.remainingTimeMillis <= totalMillis
      && 0 <= pausedRemainingMillis <= totalMillis
    }

    constructor ()
      ensures Valid() && InBounds()
      ensures !active && totalMillis == 0 && pausedRemainingMillis == 0
      ensures timerState == InitialState && posted == []
    {
      active := false;
      totalMillis := 0;
      pausedRemainingMillis := 0;
      timerState := InitialState;
      posted := [];
    }

    /** `onStartCommand`: dispatch on the intent's action. */
    method OnStartCommand(cmd: Command)
      requires Valid()
      modifies this
      ensures Valid()
      ensures cmd.Start? ==>
                && totalMillis == cmd.totalMillis.GetOr(0)
                && var r := cmd.remainingMillis.GetOr(totalMillis);
                && active == (r > 0) && timerState == Counting(totalMillis, r)
                && pausedRemainingMillis == old(pausedRemainingMillis)
                && posted == old(posted) + [NotificationRequest(totalMillis, r, false, false)]
                                         + FinishedAtStart(totalMillis, r)
      ensures cmd.Pause? ==>
                && !active && pausedRemainingMillis == old(timerState.remainingTimeMillis)
                && timerState == old(timerState).(isRunning := true, isPaused := true)
                && totalMillis == old(totalMillis)
                && posted == old(posted) + [NotificationRequest(totalMillis, pausedRemainingMillis, true, false)]
      ensures cmd.Resume? ==>
                && active == (old(pausedRemainingMillis) > 0)
                && timerState == Counting(totalMillis, old(pausedRemainingMillis))
                && totalMillis == old(totalMillis) && pausedRemainingMillis == old(pausedRemainingMillis)
                && posted == old(posted) + FinishedAtStart(totalMillis, old(pausedRemainingMillis))
      ensures cmd.Stop? ==>
                && !active && pausedRemainingMillis == 0 && timerState == Stopped(totalMillis)
                && totalMillis == old(totalMillis) && posted == old(posted)
      ensures cmd.Other? ==> unchanged(this)
    {
      match cmd
      case Start(total, remaining) =>
        StartSession(total, remaining);
      case Pause =>
        PauseCountdown();
      case Resume =>
        ResumeCountdown();
      case Stop =>
        StopCountdown();
      case Other =>
    }

    /** The START branch: read the extras (total defaults to 0, remaining to the
        new total), post the foreground notification, start counting. A START
        inside the session keeps the bounds (the saved pause value is not reset). */
    method StartSession(total: Option<int>, remaining: Option<int>)
      requires Valid()
      modifies this
      ensures Valid()
      ensures totalMillis == total.GetOr(0)
      ensures var r := remaining.GetOr(totalMillis);
              && active == (r > 0) && timerState == Counting(totalMillis, r)
              && posted == old(posted) + [NotificationRequest(totalMillis, r, false, false)]
                                       + FinishedAtStart(totalMillis, r)
              && (0 <= r <= totalMillis && 0 <= old(pausedRemainingMillis) <= totalMillis ==> InBounds())
      ensures pausedRemainingMillis == old(pausedRemainingMillis)
    {
      totalMillis := total.GetOr(0);
      var r := remaining.GetOr(totalMillis);
      posted := posted + [NotificationRequest(totalMillis, r, false, false)];
      StartCountdown(r);
    }

    /** `startCountdown`: cancel any previous ticker, start a new one, publish.
        `CountDownTimer.start()` with nothing to count (`startMillis <= 0`) runs
        `onFinish` at once and leaves no live ticker: the completed snapshot and
        notification come first, then the running snapshot overwrites that
        snapshot, and no tick or finish follows until the next command. */
    method StartCountdown(startMillis: int)
      modifies this
      ensures active == (startMillis > 0) && timerState == Counting(totalMillis, startMillis)
      ensures totalMillis == old(totalMillis) && pausedRemainingMillis == old(pausedRemainingMillis)
      ensures posted == old(posted) + FinishedAtStart(totalMillis, startMillis)
      ensures Valid()
    {
      active := false;  // countDownTimer?.cancel()
      if startMillis > 0 {
        active := true;  // a fresh CountDownTimer(startMillis, 100).start()
      } else {
        // start() calls onFinish() straight away
        timerState := Finished(totalMillis);
        posted := posted + [NotificationRequest(totalMillis, 0, false, true)];
      }
      timerState := Counting(totalMillis, startMillis);
    }

    /** `onTick(millisUntilFinished)` of the live ticker: publish the new remaining
        time and refresh the notification. A cancelled or finished ticker
        delivers nothing. Ticks count down. */
    method Tick(millisUntilFinished: int)
      requires Valid()
      requires active ==> 0 <= millisUntilFinished <= timerState.remainingTimeMillis
      modifies this
      ensures Valid()
      ensures old(active) ==>
                && active && timerState == Counting(totalMillis, millisUntilFinished)
                && totalMillis == old(totalMillis) && pausedRemainingMillis == old(pausedRemainingMillis)
                && posted == old(posted) + [NotificationRequest(totalMillis, millisUntilFinished, false, false)]
      ensures !old(active) ==> unchanged(this)
      ensures old(InBounds()) ==> InBounds()
      ensures timerState.remainingTimeMillis <= old(timerState.remainingTimeMillis)
    {
      if active {
        timerState := Counting(totalMillis, millisUntilFinished);
        // the "once per second" throttle compares the value just published with
        // itself, so its condition always holds
        var prevSec := Div(timerState.remainingTimeMillis, 1000);
        var curSec := Div(millisUntilFinished, 1000);
        if prevSec != curSec || curSec == Div(millisUntilFinished, 1000) {
          posted := posted + [NotificationRequest(totalMillis, millisUntilFinished, false, false)];
        }
      }
    }

    /** `onFinish` of the live ticker: publish completion (remaining 0) and post
        the completed notification; the service keeps running. */
    method Finish()
      requires Valid()
      modifies this
      ensures Valid()
      ensures old(active) ==>
                && !active && timerState == Finished(totalMillis)
                && totalMillis == old(totalMillis) && pausedRemainingMillis == old(pausedRemainingMillis)
                && posted == old(posted) + [NotificationRequest(totalMillis, 0, false, true)]
      ensures !old(active) ==> unchanged(this)
      ensures old(InBounds()) ==> InBounds()
    {
      if active {
        active := false;
        timerState := Finished(totalMillis);
        posted := posted + [NotificationRequest(totalMillis, 0, false, true)];
      }
    }

    /** `pauseCountdown`: cancel the ticker and save the remaining time. There is
        no state guard: pausing while idle or completed also marks the snapshot
        running and paused. */
    method PauseCountdown()
      requires Valid()
      modifies this
      ensures Valid()
      ensures !active && pausedRemainingMillis == old(timerState.remainingTimeMillis)
      ensures timerState == old(timerState).(isRunning := true, isPaused := true)
      ensures totalMillis == old(totalMillis)
      ensures posted == old(posted) + [NotificationRequest(totalMillis, pausedRemainingMillis, true, false)]
      ensures old(InBounds()) ==> InBounds()
    {
      active := false;
      pausedRemainingMillis := timerState.remainingTimeMillis;
      timerState := timerState.(isRunning := true, isPaused := true);
      posted := posted + [NotificationRequest(totalMillis, pausedRemainingMillis, true, false)];
    }

    /** `resumeCountdown`: count down again from the saved value, never from the
        total; after a pause that is exactly the remaining time shown while paused. */
    method ResumeCountdown()
      requires Valid()
      modifies this
      ensures Valid()
      ensures active == (old(pausedRemainingMillis) > 0)
      ensures timerState == Counting(totalMillis, old(pausedRemainingMillis))
      ensures old(timerState.isPaused) ==>
                timerState.remainingTimeMillis == old(timerState.remainingTimeMillis)
      ensures totalMillis == old(totalMillis) && pausedRemainingMillis == old(pausedRemainingMillis)
      ensures posted == old(posted) + FinishedAtStart(totalMillis, old(pausedRemainingMillis))
      ensures old(InBounds()) ==> InBounds()
    {
      StartCountdown(pausedRemainingMillis);
    }

    /** `stopCountdown`: cancel the ticker, forget the saved value and publish
        the idle snapshot with the remaining time reset to the total. */
    method StopCountdown()
      requires Valid()
      modifies this
      ensures Valid()
      ensures !active && pausedRemainingMillis == 0 && timerState == Stopped(totalMillis)
      ensures totalMillis == old(totalMillis) && posted == old(posted)
      ensures old(InBounds()) ==> InBounds()
    {
      active := false;
      pausedRemainingMillis := 0;
      timerState := Stopped(totalMillis);
    }
  }
}
