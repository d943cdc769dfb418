# Stillness meditation timer — a verified model of its timing core

Stillness is an Android meditation timer. This project models the parts of it
that decide what the timer does and shows. Each part is written in Dafny in the
form the Kotlin code has, and each carries proved properties.

- **The countdown service** (`TimerForegroundService`) is a class. It holds the
  total, the saved pause value, the ticker and the published snapshot.
  - START, PAUSE, RESUME and STOP are methods, and so are the ticker's `onTick`
    and `onFinish`.
  - The ticker itself is the flag `active`. A cancelled ticker delivers no more
    events.
  - Every notification the service posts is recorded in order.
  - The notification text, progress bar and action buttons are pure functions.
- **The UI bridge** (`TimerViewModel`) is a class. It holds the screen state and
  an outbox of the intents it has sent to the service. The collector that folds
  each service snapshot into the screen state is the pure function `Merge`.
- **The main button** (`StartButton`) chooses its caption, the callback a tap
  invokes, and whether the STOP control and the glow show.
- **The duration picker** has four parts:
  - the "Custom" button's selection test;
  - `formatDuration`, a method that builds the text with conditional appends;
  - the `NumberPicker` step rule;
  - the hours/minutes/seconds dialog, a class with its "Set" recombination.
- **The on-screen clock** (`formatTime`) and the notification clock are modelled
  as text formatters. Each is specified by a reader that parses the text back.
- **The vibration registry**: seven timing tables, the repeat-mode choice, and
  a device that plays one waveform at a time.
- **The preferences store** is a map from key to value. It decodes the pattern
  name with a fallback and defaults the theme flag to dark.
- **The session wiring** (`session.dfy`):
  - bridge intents are delivered to the service in order;
  - service snapshots are folded back into the bridge;
  - button taps call bridge commands.

  Three scenarios are worked through: pause and resume, completion and reset,
  and a pick made while a session runs.

Kotlin's `Int` is modelled as a 32-bit type wherever overflow can happen
(`JvmInt.Wrap`). This covers the `addSeconds` sum, the progress bar's
`toInt()` and the dialog's recombination. Kotlin's `/` and `%` truncate toward
zero (`JvmInt.Div`, `JvmInt.Rem`). `Long` is an unbounded integer.

### Where the code differs from what one would expect

The model follows the code in each of these cases:

- `pauseCountdown` has no state guard. PAUSE while idle or completed still
  marks the snapshot running and paused (`TimerForegroundService.kt:163-171`).
- The service accepts START with `total <= 0`. Only the bridge refuses a
  non-positive total. Such a START does not count down: `CountDownTimer.start()`
  with nothing to count runs `onFinish` at once, posting the completed
  notification. The running snapshot published after it stays, so the screen
  offers PAUSE at 00:00 until STOP (`StartWithNothingToCount`). A RESUME with a
  saved value of 0 ends the same way.
- START does not reset the saved pause value. So "remaining ≤ total" is not an
  unconditional invariant of the service. The model proves it only under the
  conditions that keep it: the `InBounds` clauses.
- `selectDuration` has no running guard. `SelectWhileRunning` shows the screen
  taking the new pick and then showing the running session again after the
  next tick, under the new selection.
- The notification-refresh test in `onTick` compares the snapshot it has just
  published with itself. Its condition always holds, so the notification is
  refreshed on every tick, not once per second.
- The dialog's wheels allow up to 12:59:59 = 46799 s. That is more than the
  43200 s cap that `addSeconds` applies.
- The notification rounds the remaining time up to whole seconds, while the
  on-screen clock truncates. For a positive time that is not a whole number of
  seconds, the two differ by exactly one second.

## Model

| member | source | states |
|---|---|---|
| JvmInt.Wrap | app/src/main/java/com/stillness/app/viewmodel/TimerViewModel.kt:78 | `Int` arithmetic keeps the low 32 bits: the result equals the exact value when that fits, and is congruent to it modulo 2^32 otherwise |
| JvmInt.DivRem | app/src/main/java/com/stillness/app/service/TimerForegroundService.kt:283-286 | truncating `/` and `%`: `a == b*q + r`, the remainder has the dividend's sign and is smaller than the divisor |
| JvmInt.DivOfNonNegative | app/src/main/java/com/stillness/app/ui/components/CircularTimer.kt:144-147 | for a non-negative dividend Kotlin's `/` and `%` agree with floor division |
| TimeSplit.SplitRoundTrip | app/src/main/java/com/stillness/app/ui/components/CircularTimer.kt:144-147 | `h*3600 + m*60 + s` gives back the split count for every input; non-negative counts give minutes and seconds in [0, 59]; non-positive counts give no positive field |
| TimeSplit.ClockUnique | app/src/main/java/com/stillness/app/ui/components/CircularTimer.kt:145-147 | two clock readings of the same count are equal |
| TimeSplit.SplitCombine | app/src/main/java/com/stillness/app/ui/components/DurationPicker.kt:80-82 | splitting a recombined clock reading gives back the reading |
| Text.FormatD | app/src/main/java/com/stillness/app/ui/components/CircularTimer.kt:150 | `%d`: a non-negative number prints as digits that read back as it; a negative one starts with '-' |
| Text.Pad2 | app/src/main/java/com/stillness/app/ui/components/CircularTimer.kt:152 | `%02d`: for 0..99 exactly two digits reading back as the number |
| CircularTimer.FormatTimeRoundTrip | app/src/main/java/com/stillness/app/ui/components/CircularTimer.kt:143-154 | `formatTime(millis)` reads back as `millis / 1000` whole seconds |
| CircularTimer.ClockTextRoundTrip | app/src/main/java/com/stillness/app/ui/components/CircularTimer.kt:149-153 | each clock reading's text reads back as the seconds it stands for |
| CircularTimer.FormatTimeShape | app/src/main/java/com/stillness/app/ui/components/CircularTimer.kt:149-153 | below an hour the text is "MM:SS" with two two-digit fields; from an hour on it has three fields with two-digit minutes and seconds |
| CircularTimer.TruncatesBelowASecond | app/src/main/java/com/stillness/app/ui/components/CircularTimer.kt:144 | 999 ms shows "00:00" and 1000 ms shows "00:01" |
| TimerService.CeilSecondsIsCeiling | app/src/main/java/com/stillness/app/service/TimerForegroundService.kt:283 | `(millis + 999) / 1000` is the least whole number of seconds covering `millis`, and is at least 1 for a positive time |
| TimerService.CeilIsFloorPlusOne | app/src/main/java/com/stillness/app/service/TimerForegroundService.kt:283 | the rounded-up seconds equal the truncated seconds on whole seconds and exceed them by one otherwise |
| TimerService.NotificationClockRoundTrip | app/src/main/java/com/stillness/app/service/TimerForegroundService.kt:288-292 | each of the three notification clock shapes reads back as the seconds of the reading |
| TimerService.SecondsOnlyClock | app/src/main/java/com/stillness/app/service/TimerForegroundService.kt:291 | the "0:SS" shape reads back as its seconds |
| TimerService.NotificationTimeRoundTrip | app/src/main/java/com/stillness/app/service/TimerForegroundService.kt:282-293 | the notification text reads back as the rounded-up seconds, so a positive remaining time never reads as zero |
| TimerService.ScreenAndNotificationSeconds | app/src/main/java/com/stillness/app/service/TimerForegroundService.kt:282-293 | for a positive time the screen reads `millis / 1000` and the notification one second more unless `millis` is a multiple of 1000 |
| TimerService.ProgressWithinBar | app/src/main/java/com/stillness/app/service/TimerForegroundService.kt:242-245 | with 0 ≤ remaining ≤ total and `total / 1000` ≤ `Int.MAX_VALUE` (so that `toInt()` is exact), the bar's maximum is the total in seconds and its value `total/1000 - remaining/1000` lies in [0, max] |
| TimerService.NotificationActions | app/src/main/java/com/stillness/app/service/TimerForegroundService.kt:226-277 | a running notification is ongoing and offers Stop plus Resume exactly when paused and Pause exactly when not; a completed one is dismissable with no actions or progress |
| TimerService.TimerForegroundService.constructor | app/src/main/java/com/stillness/app/service/TimerForegroundService.kt:68-70 | no ticker, zero total and saved value, the default snapshot, nothing posted |
| TimerService.TimerForegroundService.OnStartCommand | app/src/main/java/com/stillness/app/service/TimerForegroundService.kt:81-108 | the per-action new state: START counts down from the remaining extra (default: the new total), with a live ticker only when that is positive and otherwise the completed notification posted at once; PAUSE saves the remaining time; RESUME counts from the saved value, under the same rule; STOP goes idle with remaining = total; an unknown action changes nothing |
| TimerService.TimerForegroundService.StartSession | app/src/main/java/com/stillness/app/service/TimerForegroundService.kt:83-88 | total from the extra (default 0), remaining from its extra (default total), the foreground notification posted, counting started (for remaining ≤ 0 the ticker finishes at once and the completed notification follows), saved pause value kept |
| TimerService.TimerForegroundService.StartCountdown | app/src/main/java/com/stillness/app/service/TimerForegroundService.kt:118-161 | the snapshot {total, start, running, not paused, not completed} is published last; a ticker is live afterwards exactly when start > 0; for start ≤ 0 the platform's `start()` runs `onFinish` at once, so the completed notification is posted and no tick or finish follows |
| TimerService.TimerForegroundService.Tick | app/src/main/java/com/stillness/app/service/TimerForegroundService.kt:122-137 | a live tick publishes remaining = millisUntilFinished with running only and the total unchanged, and refreshes the notification every time; a cancelled ticker changes nothing; remaining never grows |
| TimerService.TimerForegroundService.Finish | app/src/main/java/com/stillness/app/service/TimerForegroundService.kt:139-151 | a live finish publishes remaining 0 and completed only, posts the completed notification, and leaves the service in place |
| TimerService.TimerForegroundService.PauseCountdown | app/src/main/java/com/stillness/app/service/TimerForegroundService.kt:163-172 | the ticker stops, the remaining time is saved, the snapshot becomes running and paused with all else unchanged, whatever the previous state |
| TimerService.TimerForegroundService.ResumeCountdown | app/src/main/java/com/stillness/app/service/TimerForegroundService.kt:174-176 | counting restarts from the saved value, never from the total; after a pause this is the remaining time shown while paused; a saved value ≤ 0 leaves no live ticker and posts the completed notification |
| TimerService.TimerForegroundService.StopCountdown | app/src/main/java/com/stillness/app/service/TimerForegroundService.kt:178-189 | the ticker stops, the saved value becomes 0, the snapshot is idle with remaining = total |
| TimerBridge.Clamp | app/src/main/java/com/stillness/app/viewmodel/TimerViewModel.kt:78 | `coerceIn`: the result lies in the range, equals the input inside it and the nearer bound outside |
| TimerBridge.AddedSeconds | app/src/main/java/com/stillness/app/viewmodel/TimerViewModel.kt:77-78 | the new selection lies in [1, 43200] and is the clamped sum whenever the `Int` sum does not overflow |
| TimerBridge.AddSecondsTwice | app/src/main/java/com/stillness/app/viewmodel/TimerViewModel.kt:77-78 | from no selection, adding positive a then positive b gives min(a + b, 43200) whenever b ≤ `Int.MAX_VALUE` − min(a, 43200), that is whenever the second `Int` sum does not overflow |
| TimerBridge.AddSecondsWrapsAtIntMax | app/src/main/java/com/stillness/app/viewmodel/TimerViewModel.kt:78 | the `Int` sum overflows at the cap: adding `Int.MAX_VALUE` to 43200 yields 1 |
| TimerBridge.Merge | app/src/main/java/com/stillness/app/viewmodel/TimerViewModel.kt:40-50 | flags copied from the service, selection never changed, total and remaining each either the service's or the local one |
| TimerBridge.MergeShowsSessionOrPick | app/src/main/java/com/stillness/app/viewmodel/TimerViewModel.kt:43-46 | for a snapshot the service can publish, the service's total and remaining are shown exactly when it has a session, the local ones otherwise |
| TimerBridge.MergeOverridesLocal | app/src/main/java/com/stillness/app/viewmodel/TimerViewModel.kt:42-49 | while the service has a session the merged state depends on the local state only through the selection |
| TimerBridge.MergeIdempotent | app/src/main/java/com/stillness/app/viewmodel/TimerViewModel.kt:40-50 | folding the same snapshot twice equals folding it once |
| TimerBridge.MergeInitialKeepsPick | app/src/main/java/com/stillness/app/viewmodel/TimerViewModel.kt:40-50 | the service's initial snapshot keeps the user's pick and clears the flags |
| TimerBridge.StartReplyConfirms | app/src/main/java/com/stillness/app/viewmodel/TimerViewModel.kt:82-97 | the service's answer to START confirms the optimistic update, with the remaining time the service counts from |
| TimerBridge.StopReplyConfirms | app/src/main/java/com/stillness/app/viewmodel/TimerViewModel.kt:117-129 | the service's idle snapshot leaves the optimistic stopped state unchanged |
| TimerBridge.ResetReplyConfirms | app/src/main/java/com/stillness/app/viewmodel/TimerViewModel.kt:131-146 | the service's idle snapshot leaves the reset state unchanged |
| TimerBridge.QuickOptionsInRange | app/src/main/java/com/stillness/app/ui/components/QuickTimerButtons.kt:24-41 | every quick-timer preset is a valid selection; every quick-add step is positive and no larger than `Int.MAX_VALUE` − 43200, so adding it to any selection up to the cap cannot overflow |
| TimerBridge.TimerViewModel.constructor | app/src/main/java/com/stillness/app/viewmodel/TimerViewModel.kt:34 | the default state and no intents sent |
| TimerBridge.TimerViewModel.OnServiceState | app/src/main/java/com/stillness/app/viewmodel/TimerViewModel.kt:40-50 | the new state is the merge of the old state with the snapshot; nothing is sent |
| TimerBridge.TimerViewModel.SelectDuration | app/src/main/java/com/stillness/app/viewmodel/TimerViewModel.kt:58-68 | the whole state is replaced: selection s, total = remaining = s·1000, all flags false, with no running guard |
| TimerBridge.TimerViewModel.AddSeconds | app/src/main/java/com/stillness/app/viewmodel/TimerViewModel.kt:74-80 | nothing changes while running (paused included); otherwise the clamped sum is selected |
| TimerBridge.TimerViewModel.StartTimer | app/src/main/java/com/stillness/app/viewmodel/TimerViewModel.kt:82-97 | with total ≤ 0 nothing is sent or changed; otherwise START(total, paused ? remaining : total) is sent and the state becomes running, not paused |
| TimerBridge.TimerViewModel.PauseTimer | app/src/main/java/com/stillness/app/viewmodel/TimerViewModel.kt:99-106 | PAUSE is sent and the state becomes running and paused, all else unchanged |
| TimerBridge.TimerViewModel.ResumeTimer | app/src/main/java/com/stillness/app/viewmodel/TimerViewModel.kt:108-115 | RESUME is sent and the state becomes running, not paused, all else unchanged |
| TimerBridge.TimerViewModel.StopTimer | app/src/main/java/com/stillness/app/viewmodel/TimerViewModel.kt:117-129 | STOP is sent; remaining = total and all three flags cleared; selection and total kept |
| TimerBridge.TimerViewModel.ResetAfterCompletion | app/src/main/java/com/stillness/app/viewmodel/TimerViewModel.kt:131-146 | STOP is sent; remaining = total and only `isCompleted` cleared |
| VibrationHelper.EffectiveRepeat | app/src/main/java/com/stillness/app/util/VibrationHelper.kt:98 | the override when given; otherwise 0 exactly for continuous patterns and -1 exactly for the others |
| VibrationHelper.TableShape | app/src/main/java/com/stillness/app/util/VibrationHelper.kt:16-53 | every table starts with a 0 delay, has length ≥ 2 and no negative entry, and ends on a silence exactly when its pattern is continuous |
| VibrationHelper.DefaultRepeatAccepted | app/src/main/java/com/stillness/app/util/VibrationHelper.kt:98-117 | without an override every pattern yields a waveform the platform accepts |
| VibrationHelper.RepeatingPatterns | app/src/main/java/com/stillness/app/util/VibrationHelper.kt:63-78 | exactly GENTLE_PULSE, QUICK_PULSE, WAVE and ESCALATING repeat |
| VibrationHelper.FiniteSegments | app/src/main/java/com/stillness/app/util/VibrationHelper.kt:31-53 | GENTLE_BELLS is six taps of 120 ms, TRIPLE_CHIME fifteen pulses of 150 ms, FADE_OUT four bursts |
| VibrationHelper.SegmentTrends | app/src/main/java/com/stillness/app/util/VibrationHelper.kt:22-53 | WAVE and ESCALATING lengthen every burst; FADE_OUT shortens every burst |
| VibrationHelper.Vibrator.constructor | app/src/main/java/com/stillness/app/util/VibrationHelper.kt:105-110 | a device with or without a vibrator, playing nothing |
| VibrationHelper.Vibrator.Vibrate | app/src/main/java/com/stillness/app/util/VibrationHelper.kt:93-118 | with a vibrator the pattern's table and effective repeat replace what was playing when `createWaveform` accepts them; a repeat it rejects throws and changes nothing; without a vibrator nothing happens; the device only ever plays an accepted waveform; the default pattern is GENTLE_PULSE |
| VibrationHelper.OverrideAccepted | app/src/main/java/com/stillness/app/util/VibrationHelper.kt:98-117 | an override is accepted exactly when it is -1 or an index into the pattern's table, so the settings preview's -1 always plays |
| VibrationHelper.Vibrator.Cancel | app/src/main/java/com/stillness/app/util/VibrationHelper.kt:120-131 | nothing is playing afterwards |
| Preferences.Find | app/src/main/java/com/stillness/app/util/PreferencesManager.kt:25 | a found pattern is a candidate with that name; not found means no candidate has it |
| Preferences.ValueOf | app/src/main/java/com/stillness/app/util/PreferencesManager.kt:24-29 | `valueOf`: a pattern with exactly that name, or none when no pattern has it |
| Preferences.NamesDistinct | app/src/main/java/com/stillness/app/util/VibrationHelper.kt:63-78 | no two patterns share a name |
| Preferences.SaveThenLoadPattern | app/src/main/java/com/stillness/app/util/PreferencesManager.kt:22-40 | storing `pattern.name` and loading with `valueOf` gives back the same pattern |
| Preferences.UnknownNameLoadsDefault | app/src/main/java/com/stillness/app/util/PreferencesManager.kt:22-30 | a missing key or a name no pattern has loads GENTLE_PULSE |
| Preferences.OldGentleNameLoadsDefault | app/src/main/java/com/stillness/app/util/PreferencesManager.kt:27-28 | the old name "GENTLE" loads GENTLE_PULSE |
| Preferences.DarkThemeLoads | app/src/main/java/com/stillness/app/util/PreferencesManager.kt:32-45 | a missing theme flag loads dark; a written flag loads back as written |
| Preferences.SettersAreIndependent | app/src/main/java/com/stillness/app/util/PreferencesManager.kt:36-46 | writing either key leaves what the other one loads unchanged |
| Preferences.PreferencesManager.constructor | app/src/main/java/com/stillness/app/util/PreferencesManager.kt:15 | the manager sees the stored preferences |
| Preferences.PreferencesManager.SetVibrationPattern | app/src/main/java/com/stillness/app/util/PreferencesManager.kt:36-40 | a single-key write of the name; the pattern then loads back and the theme is unchanged |
| Preferences.PreferencesManager.SetDarkTheme | app/src/main/java/com/stillness/app/util/PreferencesManager.kt:42-46 | a single-key write of the flag; it then loads back and the pattern is unchanged |
| DurationPicker.InitialDialogSeconds | app/src/main/java/com/stillness/app/ui/components/DurationPicker.kt:64 | the dialog opens at the selection, or at 600 s without one |
| DurationPicker.CustomIffNotQuickTimer | app/src/main/java/com/stillness/app/ui/components/DurationPicker.kt:26-50 | a selection is custom exactly when it is no quick-timer preset, never when absent, and exactly then the caption is a duration instead of "Custom" |
| DurationPicker.FormatDuration | app/src/main/java/com/stillness/app/ui/components/DurationPicker.kt:229-246 | the appended text equals the positive components joined by single spaces in h, m, s order, or "0s" |
| DurationPicker.DurationTextRoundTrip | app/src/main/java/com/stillness/app/ui/components/DurationPicker.kt:229-246 | every non-negative duration reads back from its text, so leaving out zero parts loses nothing |
| DurationPicker.FormatDurationRoundTrip | app/src/main/java/com/stillness/app/ui/components/DurationPicker.kt:229-246 | `formatDuration(t)` reads back as t for t ≥ 0 and is "0s" for t ≤ 0 |
| DurationPicker.DocumentedExamples | app/src/main/java/com/stillness/app/ui/components/DurationPicker.kt:225-228 | 300, 5400, 135, 45 and 3930 s print as "5m", "1h 30m", "2m 15s", "45s" and "1h 5m 30s" |
| DurationPicker.StepsStayInRange | app/src/main/java/com/stillness/app/ui/components/DurationPicker.kt:188-214 | the arrows keep a value in range, move by one except at their end of the range, and undo each other |
| DurationPicker.OpensInRange | app/src/main/java/com/stillness/app/ui/components/DurationPicker.kt:80-82 | the wheels open inside 0..12, 0..59, 0..59 exactly when the initial seconds lie in [0, 46799] |
| DurationPicker.ConfirmableTotals | app/src/main/java/com/stillness/app/ui/components/DurationPicker.kt:106-157 | in-range wheels recombine to [0, 46799], 0 only for all-zero wheels, 46799 only for 12:59:59, which is above the 43200 cap |
| DurationPicker.NoOverflowInRange | app/src/main/java/com/stillness/app/ui/components/DurationPicker.kt:156 | in-range wheels never overflow `Int` |
| DurationPicker.SetInRange | app/src/main/java/com/stillness/app/ui/components/DurationPicker.kt:155-159 | with in-range wheels a total is confirmed exactly when some wheel is non-zero, and lies in [1, 46799] |
| DurationPicker.DurationPickerDialog.constructor | app/src/main/java/com/stillness/app/ui/components/DurationPicker.kt:80-82 | the wheels start at the split of the initial seconds, recombine to it, and are in range exactly for [0, 46799] |
| DurationPicker.DurationPickerDialog.Increment | app/src/main/java/com/stillness/app/ui/components/DurationPicker.kt:188-190 | one wheel steps up below its last value, the others stay, and in-range wheels stay in range |
| DurationPicker.DurationPickerDialog.Decrement | app/src/main/java/com/stillness/app/ui/components/DurationPicker.kt:212-214 | one wheel steps down above its first value, the others stay, and in-range wheels stay in range |
| DurationPicker.DurationPickerDialog.Set | app/src/main/java/com/stillness/app/ui/components/DurationPicker.kt:154-160 | only a positive recombined total is confirmed; for in-range wheels that is exactly a non-zero reading, and the total lies in [1, 46799] |
| StartButton.ButtonText | app/src/main/java/com/stillness/app/ui/components/StartButton.kt:31-35 | PAUSE exactly when running and not paused, RESUME exactly when paused, START exactly when neither |
| StartButton.Tap | app/src/main/java/com/stillness/app/ui/components/StartButton.kt:102-108 | a tap invokes a callback exactly when enabled |
| StartButton.CaptionMatchesTap | app/src/main/java/com/stillness/app/ui/components/StartButton.kt:31-107 | an enabled tap invokes the callback its caption names |
| StartButton.StopAndGlow | app/src/main/java/com/stillness/app/ui/components/StartButton.kt:56-131 | STOP shows exactly when the caption is not START; the glow never accompanies PAUSE and goes with a START tap |
| Session.DeliverNext | app/src/main/java/com/stillness/app/viewmodel/TimerViewModel.kt:148-152 | the oldest intent is consumed, the service takes its per-action step, and the bridge folds in the resulting snapshot |
| Session.TickAndPublish | app/src/main/java/com/stillness/app/service/TimerForegroundService.kt:122-136 | a live tick publishes a counting snapshot that the bridge folds in; without a live ticker nothing happens |
| Session.FinishAndPublish | app/src/main/java/com/stillness/app/service/TimerForegroundService.kt:139-151 | a live finish publishes the completed snapshot that the bridge folds in; without a live ticker nothing happens |
| Session.Press | app/src/main/java/com/stillness/app/ui/components/StartButton.kt:102-108 | a tap runs the bridge command its caption names; a START from the button always counts down the whole total |
| Session.NotificationAgreesWithButton | app/src/main/java/com/stillness/app/service/TimerForegroundService.kt:247-266 | for a running session the notification's first action and the screen's main button send the same intent |
| Session.PauseAndResume | app/src/main/java/com/stillness/app/viewmodel/TimerViewModel.kt:99-115 | ten seconds ticked to seven then paused shows seven seconds paused; resuming counts from those seven seconds |
| Session.CompleteAndReset | app/src/main/java/com/stillness/app/viewmodel/TimerViewModel.kt:131-146 | a completed five-second session shows 0 left with START and no STOP; the reset shows the full five seconds and idle flags |
| Session.SelectWhileRunning | app/src/main/java/com/stillness/app/viewmodel/TimerViewModel.kt:58-67 | a pick made while running replaces the screen state, and the next tick shows the running session under the new selection |
| Session.StartWithNothingToCount | app/src/main/java/com/stillness/app/service/TimerForegroundService.kt:118-161 | a START with total 0 posts the running then the completed notification, yet the screen keeps showing a running session at zero with PAUSE offered, and no tick or finish changes it |

## Left out

- Android plumbing is not modelled:
  - intents, `startForegroundService` and `startForeground`;
  - notification channels and `PendingIntent` construction;
  - `onBind` and `onDestroy`, `START_NOT_STICKY` and logging;
  - `stopSelf` after STOP (the service object is kept; only its state is modelled).
- The `try/catch` around the reset's STOP is not modelled. Delivery never fails here.
- Wall-clock timing is not modelled. The 100 ms interval and the real elapsed
  time of `CountDownTimer` become tick events carrying a remaining time no
  larger than the last one.
- StateFlow and coroutines are not modelled. Publications are folded in
  synchronously and in order, so the conflation of rapid updates is not
  captured.
- Floating point is not modelled: the `CircularTimer` progress ratio and
  sizes, and StartButton's scale and glow animation. `ShowGlow` keeps only the
  boolean that decides whether the glow is drawn.
- `String.format` locale behaviour is not modelled. Digits are ASCII.
- Waveform playback on the device is not modelled. The vibrator keeps the one
  waveform it was last given.
- The Compose screens are not modelled (`TimerScreen.kt`, `SettingsScreen.kt`,
  `MainActivity.kt`, the QuickTimerButtons composables), nor the theme colours.
  - The completion vibration, keyed by a `LaunchedEffect`, is not part of this
    model.
  - Nor is the screen's cancel-then-stop wiring.
- `SettingsViewModel.kt` is not part of this model. It is a thin wrapper over
  `PreferencesManager`, and as written it names a `VibrationPattern.GENTLE`
  that does not exist.
- Preferences.StringAt: a value stored with the wrong type under a key is read
  as absent. DataStore would fail the cast instead; only the app's own setters
  write these keys.
- TimerBridge.Selection: `totalSeconds * 1000L` is `Long` arithmetic. `Long`
  overflow is not modelled, because the bridge's values stay far below 2^63.
- TimerService.TimerForegroundService.Tick: `millisUntilFinished` is required
  to lie in [0, remaining] while the ticker is live, as `CountDownTimer`
  guarantees. Its scheduling is not modelled.
- TimerService.TimerForegroundService.StartSession: "remaining ≤ total" is
  stated only when the extras and the saved pause value lie within the new
  total. START does not reset the saved value, so a later RESUME without an
  intervening PAUSE can count from a value above the total.
- TimerService.TimerForegroundService.StartCountdown: for a start ≤ 0 the
  completed snapshot that `onFinish` publishes is overwritten in the same call.
  Only the final, running snapshot is kept, since publications are not recorded
  one by one. The completed notification it posts is recorded.
- The readers `CircularTimer.ParseClock`, `TimerService.ParseNotificationTime`
  and `DurationPicker.ParseDuration` are not part of the app. They exist to
  state what the formatters' texts mean.
