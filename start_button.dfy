/**
 * `StartButton`: the main button's caption and the callback a tap invokes,
 * both chosen from the `isRunning` / `isPaused` flags, plus whether the STOP
 * control and the idle glow are shown.
 */
module StartButton {
  import opened Wrappers

  /** The callbacks the main button can invoke. */
  datatype Click = OnStart | OnPause | OnResume

  /** The caption that announces each callback. */
  function Caption(c: Click): string
  {
    match c
    case OnStart => "START"
    case OnPause => "PAUSE"
    case OnResume => "RESUME"
  }

  /** `buttonText`: pause a running session, resume a paused one, start
      otherwise. */
  function ButtonText(isRunning: bool, isPaused: bool): (text: string)
    ensures text == "PAUSE" <==> isRunning && !isPaused
    ensures text == "RESUME" <==> isPaused
    ensures text == "START" <==> !isRunning && !isPaused
  {
    if isRunning && !isPaused then "PAUSE"
    else if isPaused then "RESUME"
    else "START"
  }

  /** The main button's `clickable(enabled = enabled)`: a tap invokes one
      callback when enabled and nothing otherwise. */
  function Tap(isRunning: bool, isPaused: bool, enabled: bool): (r: Option<Click>)
    ensures r.None? <==> !enabled
  {
    if !enabled then None
    else if isRunning && !isPaused then Some(OnPause)
    else if isPaused then Some(OnResume)
    else Some(OnStart)
  }

  /** The STOP text is shown while running or paused. */
  predicate ShowStop(isRunning: bool, isPaused: bool)
  {
    isRunning || isPaused
  }

  /** The pulsing glow is shown when idle and enabled. */
  predicate ShowGlow(isRunning: bool, enabled: bool)
  {
    !isRunning && enabled
  }

  /** The caption always names the callback an enabled tap invokes, so the
      button never says one thing and does another. */
  lemma {:induction false} CaptionMatchesTap(isRunning: bool, isPaused: bool, enabled: bool)
    ensures enabled ==>
      Tap(isRunning, isPaused, enabled).Some?
      && Caption(Tap(isRunning, isPaused, enabled).value) == ButtonText(isRunning, isPaused)
  {
  }

  /** STOP is offered exactly when the main button does not offer START, and
      the glow never accompanies PAUSE. */
  lemma {:induction false} StopAndGlow(isRunning: bool, isPaused: bool, enabled: bool)
    ensures ShowStop(isRunning, isPaused) <==> ButtonText(isRunning, isPaused) != "START"
    ensures ShowGlow(isRunning, enabled) ==> ButtonText(isRunning, isPaused) != "PAUSE"
    ensures ShowGlow(isRunning, enabled) && !isPaused ==> Tap(isRunning, isPaused, enabled) == Some(OnStart)
  {
  }
}
