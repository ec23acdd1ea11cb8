/**
 * The Pomodoro focus timer: a state machine over (time left, running flag, mode)
 * driven by the one-second tick, reset, mode switch and play/pause. The time
 * left is whole seconds; the display uses `Clock.FormatTime`.
 */
module Pomodoro {
  import opened Clock

  datatype Mode = Focus | Break

  /** `FOCUS_TIME`: 25 minutes in seconds. */
  const FocusTime: int := 25 * 60
  /** `BREAK_TIME`: 5 minutes in seconds. */
  const BreakTime: int := 5 * 60

  /** The full duration of a mode. */
  function Duration(m: Mode): (d: int)
    ensures d == (if m == Focus then 1500 else 300)
  {
    if m == Focus then FocusTime else BreakTime
  }

  datatype TimerState = TimerState(timeLeft: int, isActive: bool, mode: Mode)

  /** The state the screen starts in. */
  const Initial: TimerState := TimerState(FocusTime, false, Focus)

  /** The time left lies between zero and the full duration of the current mode. */
  predicate InRange(s: TimerState) {
    0 <= s.timeLeft <= Duration(s.mode)
  }

  // ---------------------------------------------------------------------------
  // Transitions, as functions of the previous state
  // ---------------------------------------------------------------------------

  /**
   * The interval callback: at one second or less the countdown ends at zero and
   * the timer stops; otherwise one second is taken off. The mode never changes.
   */
  function TickStep(s: TimerState): (r: TimerState)
    ensures r.mode == s.mode && 0 <= r.timeLeft
    ensures 0 <= s.timeLeft ==> r.timeLeft <= s.timeLeft
    ensures r.timeLeft == 0 ==> !r.isActive
    ensures s.timeLeft <= 1 ==> r == s.(timeLeft := 0, isActive := false)
    ensures s.timeLeft > 1 ==> r == s.(timeLeft := s.timeLeft - 1)
  {
    if s.timeLeft <= 1 then s.(timeLeft := 0, isActive := false)
    else s.(timeLeft := s.timeLeft - 1)
  }

  /** `handleReset`: stop, and refill the current mode's duration. */
  function ResetStep(s: TimerState): (r: TimerState)
    ensures !r.isActive && r.mode == s.mode && r.timeLeft == Duration(s.mode)
  {
    TimerState(if s.mode == Focus then FocusTime else BreakTime, false, s.mode)
  }

  /** `toggleMode`: stop, switch to the other mode, and load that mode's duration. */
  function ToggleModeStep(s: TimerState): (r: TimerState)
    ensures !r.isActive && r.mode != s.mode && r.timeLeft == Duration(r.mode)
  {
    var newMode := if s.mode == Focus then Break else Focus;
    TimerState(if newMode == Focus then FocusTime else BreakTime, false, newMode)
  }

  /** The play/pause button: `setIsActive(!isActive)`. */
  function PlayPauseStep(s: TimerState): (r: TimerState)
    ensures r.isActive != s.isActive && r.timeLeft == s.timeLeft && r.mode == s.mode
  {
    s.(isActive := !s.isActive)
  }

  /** `n` consecutive ticks. */
  function Ticks(s: TimerState, n: nat): TimerState {
    if n == 0 then s else TickStep(Ticks(s, n - 1))
  }

  // ---------------------------------------------------------------------------
  // Properties of the transitions
  // ---------------------------------------------------------------------------

  /** The initial state is a stopped full focus period, within range. */
  lemma InitialInRange()
    ensures InRange(Initial) && Initial.timeLeft == Duration(Focus) && !Initial.isActive
  {
  }

  /** Every transition keeps the time left within the current mode's duration. */
  lemma TransitionsKeepRange(s: TimerState)
    requires InRange(s)
    ensures InRange(TickStep(s))
    ensures InRange(PlayPauseStep(s))
  {
  }

  /** Reset and mode switch land in range from any state, even one that is not. */
  lemma ResetAndToggleRestoreRange(s: TimerState)
    ensures InRange(ResetStep(s)) && InRange(ToggleModeStep(s))
  {
  }

  /** Switching the mode twice returns to the original mode at its full duration, stopped. */
  lemma ToggleModeTwice(s: TimerState)
    ensures ToggleModeStep(ToggleModeStep(s)) == ResetStep(s)
    ensures ToggleModeStep(ToggleModeStep(s)) == TimerState(Duration(s.mode), false, s.mode)
  {
  }

  /** Pressing play/pause twice changes nothing. */
  lemma PlayPauseTwice(s: TimerState)
    ensures PlayPauseStep(PlayPauseStep(s)) == s
  {
  }

  /** While more than `k` seconds are left, `k` ticks of a running timer just count down. */
  lemma {:induction false} CountingDown(s: TimerState, k: nat)
    requires s.isActive && k < s.timeLeft
    ensures Ticks(s, k) == s.(timeLeft := s.timeLeft - k)
  {
    if k > 0 {
      CountingDown(s, k - 1);
    }
  }

  /**
   * A running timer with `t >= 1` seconds left stops after exactly `t` ticks, at
   * zero and in the same mode, and stays there under further ticks.
   */
  lemma {:induction false} CountdownEnds(s: TimerState)
    requires s.isActive && 1 <= s.timeLeft
    ensures Ticks(s, s.timeLeft) == s.(timeLeft := 0, isActive := false)
    ensures TickStep(Ticks(s, s.timeLeft)) == Ticks(s, s.timeLeft)
  {
    CountingDown(s, s.timeLeft - 1);
  }

  /** Reset then play runs a full period of the current mode: 1500 ticks in focus, 300 on a break. */
  lemma FullPeriod(s: TimerState)
    ensures var p := PlayPauseStep(ResetStep(s));
      Ticks(p, Duration(s.mode)) == TimerState(0, false, s.mode)
  {
    CountdownEnds(PlayPauseStep(ResetStep(s)));
  }

  /** Within range, the time left always shows as exactly "MM:SS". */
  lemma DisplayFitsFiveCharacters(s: TimerState)
    requires InRange(s)
    ensures |FormatTime(s.timeLeft)| == 5 && FormatTime(s.timeLeft)[2] == ':'
  {
    FormatTimeShort(s.timeLeft);
  }

  // ---------------------------------------------------------------------------
  // The screen's state variables
  // ---------------------------------------------------------------------------

  /** The three state variables of the Pomodoro screen, updated in place by its handlers. */
  class PomodoroTimer {
    var timeLeft: int
    var isActive: bool
    var mode: Mode

    function State(): TimerState
      reads this
    {
      TimerState(timeLeft, isActive, mode)
    }

    /** The class invariant: the time left lies within the current mode's duration. */
    predicate Valid()
      reads this
    {
      InRange(State())
    }

    constructor()
      ensures State() == Initial
      ensures Valid()
    {
      timeLeft := FocusTime;
      isActive := false;
      mode := Focus;
    }

    /** One firing of the one-second interval. */
    method Tick()
      requires Valid()
      modifies this
      ensures State() == TickStep(old(State()))
      ensures Valid()
    {
      TransitionsKeepRange(State());
      if timeLeft <= 1 {
        isActive := false;
        timeLeft := 0;
      } else {
        timeLeft := timeLeft - 1;
      }
    }

    method Reset()
      modifies this
      ensures State() == ResetStep(old(State()))
      ensures Valid()
    {
      isActive := false;
      timeLeft := if mode == Focus then FocusTime else BreakTime;
    }

    method ToggleMode()
      modifies this
      ensures State() == ToggleModeStep(old(State()))
      ensures Valid()
    {
      isActive := false;
      var newMode := if mode == Focus then Break else Focus;
      mode := newMode;
      timeLeft := if newMode == Focus then FocusTime else BreakTime;
    }

    method PlayPause()
      requires Valid()
      modifies this
      ensures State() == PlayPauseStep(old(State()))
      ensures Valid()
    {
      isActive := !isActive;
    }

    /** The timer text on screen. */
    method Display() returns (text: string)
      requires Valid()
      ensures text == FormatTime(timeLeft)
      ensures |text| == 5 && text[2] == ':'
    {
      DisplayFitsFiveCharacters(State());
      text := FormatTime(timeLeft);
    }
  }
}
