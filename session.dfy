/**
 * The screen, the bridge and the service together: intents the bridge sends
 * are delivered to the service in order, every snapshot the service publishes
 * is folded into the bridge's state, and a tap on the main button invokes the
 * bridge command its caption announces. The delivery and the folding are
 * synchronous here; the real app runs them on the main looper and a coroutine.
 */
module Session {
  import opened Wrappers
  import opened TimerService
  import opened TimerBridge
  import StartButton

  /** The intent each callback of the main button ends up sending. */
  predicate SendsIntent(c: StartButton.Click, cmd: Command)
  {
    match c
    case OnStart => cmd.Start?
    case OnPause => cmd == Pause
    case OnResume => cmd == Resume
  }

  /** The oldest pending intent reaches the service; the bridge then folds in
      the snapshot the service publishes. */
  method DeliverNext(vm: TimerViewModel, svc: TimerForegroundService)
    requires svc.Valid() && |vm.outbox| > 0
    modifies vm, svc
    ensures svc.Valid()
    ensures vm.outbox == old(vm.outbox)[1..]
    ensures vm.state == Merge(old(vm.state), svc.timerState)
    ensures var cmd := old(vm.outbox[0]);
            && (cmd.Start? ==>
                  var total := cmd.totalMillis.GetOr(0);
                  var r := cmd.remainingMillis.GetOr(total);
                  svc.active == (r > 0) && svc.totalMillis == total
                  && svc.timerState == Counting(total, r))
            && (cmd.Pause? ==>
                  !svc.active && svc.pausedRemainingMillis == old(svc.timerState.remainingTimeMillis)
                  && svc.timerState == old(svc.timerState).(isRunning := true, isPaused := true))
            && (cmd.Resume? ==>
                  svc.active == (old(svc.pausedRemainingMillis) > 0)
                  && svc.timerState == Counting(svc.totalMillis, old(svc.pausedRemainingMillis)))
            && (cmd.Stop? ==> !svc.active && svc.timerState == Stopped(svc.totalMillis))
            && (!cmd.Start? ==> svc.totalMillis == old(svc.totalMillis))
  {
    var cmd := vm.outbox[0];
    vm.outbox := vm.outbox[1..];
    svc.OnStartCommand(cmd);
    vm.OnServiceState(svc.timerState);
  }

  /** A tick of the service's ticker, then the bridge folds in what it published. */
  method TickAndPublish(vm: TimerViewModel, svc: TimerForegroundService, millisUntilFinished: int)
    requires svc.Valid()
    requires svc.active ==> 0 <= millisUntilFinished <= svc.timerState.remainingTimeMillis
    modifies vm, svc
    ensures svc.Valid()
    ensures old(svc.active) ==> svc.timerState == Counting(old(svc.totalMillis), millisUntilFinished)
    ensures !old(svc.active) ==> unchanged(svc)
    ensures vm.state == Merge(old(vm.state), svc.timerState) && vm.outbox == old(vm.outbox)
  {
    svc.Tick(millisUntilFinished);
    vm.OnServiceState(svc.timerState);
  }

  /** The ticker's finish, then the bridge folds in the completed snapshot. */
  method FinishAndPublish(vm: TimerViewModel, svc: TimerForegroundService)
    requires svc.Valid()
    modifies vm, svc
    ensures svc.Valid()
    ensures old(svc.active) ==> svc.timerState == Finished(old(svc.totalMillis))
    ensures !old(svc.active) ==> unchanged(svc)
    ensures vm.state == Merge(old(vm.state), svc.timerState) && vm.outbox == old(vm.outbox)
  {
    svc.Finish();
    vm.OnServiceState(svc.timerState);
  }

  /** A tap on the main button: the callback `StartButton` chooses, wired to
      the bridge command of the same name. Since START is offered only when not
      paused, a START from the button always counts down the whole total. */
  method Press(vm: TimerViewModel, enabled: bool)
    modifies vm
    ensures var tap := StartButton.Tap(old(vm.state.isRunning), old(vm.state.isPaused), enabled);
            && (tap.None? ==> vm.state == old(vm.state) && vm.outbox == old(vm.outbox))
            && (tap == Some(StartButton.OnStart) && old(vm.state.totalTimeMillis) <= 0 ==>
                  vm.state == old(vm.state) && vm.outbox == old(vm.outbox))
            && (tap == Some(StartButton.OnStart) && old(vm.state.totalTimeMillis) > 0 ==>
                  var total := old(vm.state.totalTimeMillis);
                  && vm.outbox == old(vm.outbox) + [Start(Some(total), Some(total))]
                  && vm.state == old(vm.state).(isRunning := true, isPaused := false))
            && (tap == Some(StartButton.OnPause) ==>
                  vm.outbox == old(vm.outbox) + [Pause]
                  && vm.state == old(vm.state).(isRunning := true, isPaused := true))
            && (tap == Some(StartButton.OnResume) ==>
                  vm.outbox == old(vm.outbox) + [Resume]
                  && vm.state == old(vm.state).(isRunning := true, isPaused := false))
            && (tap.Some? && vm.outbox != old(vm.outbox) ==>
                  SendsIntent(tap.value, vm.outbox[|vm.outbox| - 1]))
  {
    var tap := StartButton.Tap(vm.state.isRunning, vm.state.isPaused, enabled);
    if tap.Some? {
      match tap.value
      case OnStart => vm.StartTimer();
      case OnPause => vm.PauseTimer();
      case OnResume => vm.ResumeTimer();
    }
  }

  /** The notification's first button and the screen's main button agree: for
      a session the service is counting or holding, both send the same intent. */
  lemma {:induction false} NotificationAgreesWithButton(current: TimerState, service: ServiceTimerState)
    requires service.isRunning && !service.isCompleted
    ensures var shown := Merge(current, service);
            var n := BuildNotification(service.totalTimeMillis, service.remainingTimeMillis,
                                       service.isPaused, false);
            var tap := StartButton.Tap(shown.isRunning, shown.isPaused, true);
            && |n.actions| == 2 && tap.Some?
            && SendsIntent(tap.value, ActionCommand(n.actions[0]))
  {
    NotificationActions(service.totalTimeMillis, service.remainingTimeMillis, service.isPaused, false);
  }

  /** Ten seconds selected and started, a tick at seven seconds, then PAUSE and
      RESUME from the main button: the screen shows seven seconds paused, and
      the service resumes from those seven seconds, not from the total. */
  method PauseAndResume() returns (paused: TimerState, resumed: TimerState)
    ensures paused == TimerState(Some(10), 10000, 7000, true, true, false)
    ensures resumed == TimerState(Some(10), 10000, 7000, true, false, false)
  {
    var vm := new TimerViewModel();
    var svc := new TimerForegroundService();
    vm.SelectDuration(10);
    Press(vm, true);
    DeliverNext(vm, svc);
    assert svc.active && vm.state == TimerState(Some(10), 10000, 10000, true, false, false);
    TickAndPublish(vm, svc, 7000);
    Press(vm, true);
    DeliverNext(vm, svc);
    paused := vm.state;
    Press(vm, true);
    DeliverNext(vm, svc);
    resumed := vm.state;
  }

  /** Five seconds run to completion, then the screen resets: the completed
      view shows zero left with START offered and no STOP; the reset view shows
      the full five seconds again and the service has gone idle. */
  method CompleteAndReset() returns (completed: TimerState, reset: TimerState)
    ensures completed == TimerState(Some(5), 5000, 0, false, false, true)
    ensures StartButton.ButtonText(completed.isRunning, completed.isPaused) == "START"
    ensures !StartButton.ShowStop(completed.isRunning, completed.isPaused)
    ensures reset == TimerState(Some(5), 5000, 5000, false, false, false)
  {
    var vm := new TimerViewModel();
    var svc := new TimerForegroundService();
    vm.SelectDuration(5);
    vm.StartTimer();
    DeliverNext(vm, svc);
    FinishAndPublish(vm, svc);
    completed := vm.state;
    vm.ResetAfterCompletion();
    DeliverNext(vm, svc);
    reset := vm.state;
  }

  /** `selectDuration` while a session runs: the pick replaces the screen's
      state at once, but the next tick restores the running session's numbers,
      so the screen shows the old session under the new selection. */
  method SelectWhileRunning() returns (picked: TimerState, shown: TimerState)
    ensures picked == TimerState(Some(300), 300000, 300000, false, false, false)
    ensures shown == TimerState(Some(300), 10000, 8000, true, false, false)
  {
    var vm := new TimerViewModel();
    var svc := new TimerForegroundService();
    vm.SelectDuration(10);
    vm.StartTimer();
    DeliverNext(vm, svc);
    TickAndPublish(vm, svc, 9000);
    vm.SelectDuration(300);
    picked := vm.state;
    TickAndPublish(vm, svc, 8000);
    shown := vm.state;
  }

  /** A START with nothing to count, which the service accepts: the platform
      ticker finishes at once and posts the completed notification, but the
      running snapshot published after it stays. The screen then offers PAUSE
      at zero seconds, and no tick or finish follows to change that. */
  method StartWithNothingToCount() returns (shown: TimerState, posted: seq<NotificationRequest>)
    ensures shown == InitialTimerState.(totalTimeMillis := 0, remainingTimeMillis := 0, isRunning := true)
    ensures StartButton.ButtonText(shown.isRunning, shown.isPaused) == "PAUSE"
    ensures posted == [NotificationRequest(0, 0, false, false), NotificationRequest(0, 0, false, true)]
  {
    var vm := new TimerViewModel();
    var svc := new TimerForegroundService();
    svc.OnStartCommand(Start(Some(0), None));
    vm.OnServiceState(svc.timerState);
    TickAndPublish(vm, svc, 0);
    FinishAndPublish(vm, svc);
    shown := vm.state;
    posted := svc.posted;
  }
}
