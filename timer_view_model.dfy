/**
 * `TimerViewModel`: the bridge between the screen and the foreground service.
 * It keeps a `TimerState` (the service snapshot plus the local selection),
 * updates it optimistically on every command, and sends the command to the
 * service. Intents sent with `startForegroundService` are recorded, in order,
 * in `outbox`. Each snapshot the service publishes is folded into the local
 * state by `Merge` (the collector started in `init`).
 *
 * The screen's completion cue (vibrate when `isCompleted` turns true, keyed by
 * a `LaunchedEffect`) and its cancel-before-stop wiring live in the Compose
 * screen and are not part of this model.
 */
module TimerBridge {
  import opened Wrappers
  import opened JvmInt
  import opened TimerService

  datatype TimerState = TimerState(
    selectedSeconds: Option<Int32>,
    totalTimeMillis: int,
    remainingTimeMillis: int,
    isRunning: bool,
    isPaused: bool,
    isCompleted: bool)

  /** The data class defaults: nothing selected. */
  const InitialTimerState := TimerState(None, 0, 0, false, false, false)

  /** The bounds `addSeconds` clamps to (one second to twelve hours). */
  const MinSelection: int := 1
  const MaxSelection: int := 43200

  /** The quick-timer presets and quick-add steps offered on the timer screen. */
  const QuickTimerSeconds: seq<Int32> := [5 * 60, 15 * 60, 30 * 60, 60 * 60]
  const QuickAddSeconds: seq<Int32> := [15, 30, 60, 5 * 60]

  /** `coerceIn(lo, hi)`. */
  function Clamp(x: int, lo: int, hi: int): (r: int)
    requires lo <= hi
    ensures lo <= r <= hi
    ensures lo <= x <= hi ==> r == x
    ensures x < lo ==> r == lo
    ensures x > hi ==> r == hi
  {
    if x < lo then lo else if x > hi then hi else x
  }

  /** The state `selectDuration(totalSeconds)` installs: the whole state is
      replaced, so a running session is forgotten locally. */
  function Selection(totalSeconds: Int32): TimerState
  {
    TimerState(Some(totalSeconds), totalSeconds * 1000, totalSeconds * 1000, false, false, false)
  }

  /** The new selection of `addSeconds(delta)`: the current selection (or 0)
      plus `delta` in `Int` arithmetic, clamped to [1, 43200]. */
  function AddedSeconds(selected: Option<Int32>, delta: Int32): (r: Int32)
    ensures MinSelection <= r <= MaxSelection
    ensures var sum := selected.GetOr(0) + delta;
            IntMin <= sum <= IntMax ==> r == Clamp(sum, MinSelection, MaxSelection)
  {
    Clamp(Wrap(selected.GetOr(0) + delta), MinSelection, MaxSelection)
  }

  /** Two additions from an empty selection add up, capped at twelve hours,
      whenever the second `Int` sum does not overflow. */
  lemma {:induction false} AddSecondsTwice(a: Int32, b: Int32)
    requires 0 < a && 0 < b && b <= IntMax - (if a < MaxSelection then a else MaxSelection)
    ensures AddedSeconds(Some(AddedSeconds(None, a)), b) == if a + b < MaxSelection then a + b else MaxSelection
  {
    var first := AddedSeconds(None, a);
    assert first == if a < MaxSelection then a else MaxSelection;
  }

  /** `Int` overflow: at the cap, adding `Int.MAX_VALUE` wraps around to a
      negative sum, which the clamp turns into one second. The screen only ever
      adds the small quick-add steps. */
  lemma AddSecondsWrapsAtIntMax()
    ensures AddedSeconds(Some(MaxSelection), IntMax) == MinSelection
  {
  }

  /** The remaining time `startTimer` asks the service to count down from. */
  function StartRemaining(s: TimerState): int
  {
    if s.isPaused then s.remainingTimeMillis else s.totalTimeMillis
  }

  /** The collector in `init`: copy the service's three flags; take its total
      while it is running or completed and its remaining time while it is
      running, paused or completed; keep the local values otherwise; never
      touch the selection. */
  function Merge(current: TimerState, service: ServiceTimerState): (r: TimerState)
    ensures r.selectedSeconds == current.selectedSeconds
    ensures r.isRunning == service.isRunning && r.isPaused == service.isPaused
    ensures r.isCompleted == service.isCompleted
    ensures r.totalTimeMillis == service.totalTimeMillis || r.totalTimeMillis == current.totalTimeMillis
    ensures r.remainingTimeMillis == service.remainingTimeMillis || r.remainingTimeMillis == current.remainingTimeMillis
  {
    current.(
      totalTimeMillis :=
        if service.isRunning || service.isCompleted then service.totalTimeMillis
        else current.totalTimeMillis,
      remainingTimeMillis :=
        if service.isRunning || service.isPaused || service.isCompleted then service.remainingTimeMillis
        else current.remainingTimeMillis,
      isRunning := service.isRunning,
      isPaused := service.isPaused,
      isCompleted := service.isCompleted)
  }

  /** A snapshot the service can publish: paused implies running (see
      `TimerForegroundService.Valid`). */
  predicate Publishable(service: ServiceTimerState)
  {
    service.isPaused ==> service.isRunning
  }

  /** For a publishable snapshot the bridge shows the service's numbers exactly
      when the service has a session (running, paused or completed), and the
      local pick otherwise; the total and remaining times are taken together. */
  lemma {:induction false} MergeShowsSessionOrPick(current: TimerState, service: ServiceTimerState)
    requires Publishable(service)
    ensures var r := Merge(current, service);
            var hasSession := service.isRunning || service.isCompleted;
            && (hasSession ==> r.totalTimeMillis == service.totalTimeMillis
                               && r.remainingTimeMillis == service.remainingTimeMillis)
            && (!hasSession ==> r.totalTimeMillis == current.totalTimeMillis
                                && r.remainingTimeMillis == current.remainingTimeMillis)
  {
  }

  /** While the service has a session, the merged view does not depend on the
      local state at all, apart from the selection. */
  lemma {:induction false} MergeOverridesLocal(c1: TimerState, c2: TimerState, service: ServiceTimerState)
    requires service.isRunning || service.isCompleted
    ensures Merge(c1, service).(selectedSeconds := None) == Merge(c2, service).(selectedSeconds := None)
  {
  }

  /** Folding the same snapshot twice changes nothing more. */
  lemma {:induction false} MergeIdempotent(current: TimerState, service: ServiceTimerState)
    ensures Merge(Merge(current, service), service) == Merge(current, service)
  {
  }

  /** Before the service ever publishes a session, the bridge shows the user's
      pending pick with all flags clear. */
  lemma {:induction false} MergeInitialKeepsPick(current: TimerState)
    ensures Merge(current, InitialState) == current.(isRunning := false, isPaused := false, isCompleted := false)
  {
  }

  /** Reconciliation of `startTimer`: the service's reply to the START it was
      sent (a counting snapshot of that total and remaining time) confirms the
      optimistic update, with the remaining time the service counts from. */
  lemma {:induction false} StartReplyConfirms(s: TimerState)
    requires s.totalTimeMillis > 0
    ensures Merge(s.(isRunning := true, isPaused := false),
                  Counting(s.totalTimeMillis, StartRemaining(s)))
         == s.(remainingTimeMillis := StartRemaining(s), isRunning := true, isPaused := false, isCompleted := false)
  {
  }

  /** Reconciliation of `stopTimer`: the service's idle snapshot leaves the
      optimistic stopped state exactly as it is. */
  lemma {:induction false} StopReplyConfirms(s: TimerState, total: int)
    ensures var stopped := s.(remainingTimeMillis := s.totalTimeMillis, isRunning := false,
                              isPaused := false, isCompleted := false);
            Merge(stopped, Stopped(total)) == stopped
  {
  }

  /** Reconciliation of `resetAfterCompletion` after a completed session: the
      service's idle snapshot leaves the reset state as it is. */
  lemma {:induction false} ResetReplyConfirms(s: TimerState, total: int)
    requires !s.isRunning && !s.isPaused
    ensures var reset := s.(remainingTimeMillis := s.totalTimeMillis, isCompleted := false);
            Merge(reset, Stopped(total)) == reset
  {
  }

  /** Every quick-timer preset is a valid selection, and every quick-add step
      is positive and small enough that adding it to any selection up to the
      cap cannot overflow `Int`. */
  lemma QuickOptionsInRange()
    ensures forall i :: 0 <= i < |QuickTimerSeconds| ==> MinSelection <= QuickTimerSeconds[i] <= MaxSelection
    ensures forall i :: 0 <= i < |QuickAddSeconds| ==> 0 < QuickAddSeconds[i] <= IntMax - MaxSelection
  {
  }

  class TimerViewModel {
    /** `_timerState.value`. */
    var state: TimerState
    /** The intents sent to the service, oldest first. */
    var outbox: seq<Command>

    constructor ()
      ensures state == InitialTimerState && outbox == []
    {
      state := InitialTimerState;
      outbox := [];
    }

    /** One step of the collector: fold a published service snapshot in. */
    method OnServiceState(service: ServiceTimerState)
      modifies this
      ensures state == Merge(old(state), service) && outbox == old(outbox)
    {
      var current := state;
      state := Merge(current, service);
    }

    /** `selectDuration`: no guard, not even while a session runs. */
    method SelectDuration(totalSeconds: Int32)
      modifies this
      ensures state == Selection(totalSeconds) && outbox == old(outbox)
    {
      state := Selection(totalSeconds);
    }

    /** `addSeconds`: ignored while running (which includes paused). */
    method AddSeconds(seconds: Int32)
      modifies this
      ensures old(state.isRunning) ==> state == old(state)
      ensures !old(state.isRunning) ==> state == Selection(AddedSeconds(old(state.selectedSeconds), seconds))
      ensures outbox == old(outbox)
    {
      var s := state;
      if s.isRunning {
        return;
      }
      var current := s.selectedSeconds.GetOr(0);
      var newTotal := Clamp(Wrap(current + seconds), MinSelection, MaxSelection);
      SelectDuration(newTotal);
    }

    /** `startTimer`: nothing happens without a positive total; otherwise send
        START with the total and the remaining time (the paused remainder when
        paused, else the total) and mark running, not paused. */
    method StartTimer()
      modifies this
      ensures old(state.totalTimeMillis) <= 0 ==> state == old(state) && outbox == old(outbox)
      ensures old(state.totalTimeMillis) > 0 ==>
                && outbox == old(outbox) + [Start(Some(old(state.totalTimeMillis)), Some(StartRemaining(old(state))))]
                && state == old(state).(isRunning := true, isPaused := false)
    {
      var s := state;
      if s.totalTimeMillis <= 0 {
        return;
      }
      var remaining := if s.isPaused then s.remainingTimeMillis else s.totalTimeMillis;
      outbox := outbox + [Start(Some(s.totalTimeMillis), Some(remaining))];
      state := s.(isRunning := true, isPaused := false);
    }

    /** `pauseTimer`: unguarded; sends PAUSE and marks running and paused. */
    method PauseTimer()
      modifies this
      ensures outbox == old(outbox) + [Pause]
      ensures state == old(state).(isRunning := true, isPaused := true)
    {
      outbox := outbox + [Pause];
      state := state.(isRunning := true, isPaused := true);
    }

    /** `resumeTimer`: unguarded; sends RESUME and marks running, not paused. */
    method ResumeTimer()
      modifies this
      ensures outbox == old(outbox) + [Resume]
      ensures state == old(state).(isRunning := true, isPaused := false)
    {
      outbox := outbox + [Resume];
      state := state.(isRunning := true, isPaused := false);
    }

    /** `stopTimer`: sends STOP, resets the remaining time to the total and
        clears all three flags; the selection and total stay. */
    method StopTimer()
      modifies this
      ensures outbox == old(outbox) + [Stop]
      ensures state == old(state).(remainingTimeMillis := old(state.totalTimeMillis),
                                   isRunning := false, isPaused := false, isCompleted := false)
    {
      outbox := outbox + [Stop];
      state := state.(remainingTimeMillis := state.totalTimeMillis,
                      isRunning := false, isPaused := false, isCompleted := false);
    }

    /** `resetAfterCompletion`: sends STOP, resets the remaining time to the
        total and clears only `isCompleted`. */
    method ResetAfterCompletion()
      modifies this
      ensures outbox == old(outbox) + [Stop]
      ensures state == old(state).(remainingTimeMillis := old(state.totalTimeMillis), isCompleted := false)
    {
      outbox := outbox + [Stop];
      state := state.(remainingTimeMillis := state.totalTimeMillis, isCompleted := false);
    }
  }
}
