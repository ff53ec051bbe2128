/**
 * The focus/break countdown. `Clock` is the engine's state as a value
 * (`isRunning`, `isFocus`, `remaining`, the two configured durations and the
 * day's two counters) and each `…Step` function is one user action or one
 * tick on that value. Class `Timer` holds the same state in mutable fields,
 * the counters living in the day record, and its methods are proved to
 * perform exactly those steps.
 */
module TimerEngine {
  import opened Wrappers
  import Inputs
  import Day

  /** Which `beep` a tick plays. */
  datatype Cue =
    | Silent
    | TenSecondsLeft   // beep(660, 90): ten seconds of focus left
    | FocusDone        // beep(1040, 200): a focus interval is over
    | BreakDone        // beep(520, 180): a break is over

  datatype Clock = Clock(
    isRunning: bool,
    isFocus: bool,
    remaining: nat,
    focusSeconds: nat,
    breakSeconds: nat,
    pomodoros: int,
    distractions: int)

  datatype TickResult = TickResult(clock: Clock, cue: Cue)

  /** The clock when the page loads: the form's initial minutes, not clamped. */
  function Initial(focusField: nat, breakField: nat, pomodoros: int, distractions: int): (c: Clock)
    ensures !c.isRunning && c.isFocus && c.remaining == c.focusSeconds == focusField * 60
    ensures c.breakSeconds == breakField * 60
    ensures c.pomodoros == pomodoros && c.distractions == distractions
  {
    Clock(false, true, focusField * 60, focusField * 60, breakField * 60, pomodoros, distractions)
  }

  /** The body of the one-second interval callback. */
  function TickStep(c: Clock): (r: TickResult)
    ensures r.clock.isRunning == c.isRunning && r.clock.distractions == c.distractions
    ensures r.clock.focusSeconds == c.focusSeconds && r.clock.breakSeconds == c.breakSeconds
    ensures r.clock.pomodoros == c.pomodoros + (if c.remaining == 0 && c.isFocus then 1 else 0)
    ensures r.clock.isFocus != c.isFocus <==> c.remaining == 0
    ensures c.remaining > 0 ==> r.clock.remaining == c.remaining - 1
    ensures c.remaining == 0 ==>
      r.clock.remaining == if r.clock.isFocus then c.focusSeconds else c.breakSeconds
    ensures r.cue == TenSecondsLeft <==> c.isFocus && c.remaining == 11
    ensures r.cue == FocusDone <==> c.isFocus && c.remaining == 0
    ensures r.cue == BreakDone <==> !c.isFocus && c.remaining == 0
  {
    if c.remaining > 0 then
      var r := c.remaining - 1;
      TickResult(c.(remaining := r), if c.isFocus && r == 10 then TenSecondsLeft else Silent)
    else
      var focus := !c.isFocus;
      TickResult(
        c.(isFocus := focus,
           remaining := if focus then c.focusSeconds else c.breakSeconds,
           pomodoros := if c.isFocus then c.pomodoros + 1 else c.pomodoros),
        if c.isFocus then FocusDone else BreakDone)
  }

  /** `startTimer`. */
  function StartStep(c: Clock): (r: Clock)
    ensures r.isRunning
    ensures c.isRunning ==> r == c
    ensures r.(isRunning := c.isRunning) == c
  {
    if c.isRunning then c else c.(isRunning := true)
  }

  /** The pause button: `if (isRunning) stopTimer()`. */
  function PauseStep(c: Clock): (r: Clock)
    ensures !r.isRunning
    ensures !c.isRunning ==> r == c
    ensures r.(isRunning := c.isRunning) == c
  {
    if c.isRunning then c.(isRunning := false) else c
  }

  /** The reset button. */
  function ResetStep(c: Clock): (r: Clock)
    ensures !r.isRunning && r.isFocus && r.remaining == c.focusSeconds
    ensures r.focusSeconds == c.focusSeconds && r.breakSeconds == c.breakSeconds
    ensures r.pomodoros == c.pomodoros && r.distractions == c.distractions
  {
    c.(isRunning := false, isFocus := true, remaining := c.focusSeconds)
  }

  /** "Apply settings": only the durations change. */
  function ApplySettingsStep(c: Clock, focusField: Option<int>, breakField: Option<int>): (r: Clock)
    ensures 60 <= r.focusSeconds <= 120 * 60 && r.focusSeconds % 60 == 0
    ensures 60 <= r.breakSeconds <= 60 * 60 && r.breakSeconds % 60 == 0
    ensures r.focusSeconds == Inputs.FocusMinutes(focusField) * 60
    ensures r.breakSeconds == Inputs.BreakMinutes(breakField) * 60
    ensures focusField.None? ==> r.focusSeconds == 25 * 60
    ensures breakField.None? ==> r.breakSeconds == 5 * 60
    ensures r.(focusSeconds := c.focusSeconds, breakSeconds := c.breakSeconds) == c
  {
    c.(focusSeconds := Inputs.FocusMinutes(focusField) * 60,
       breakSeconds := Inputs.BreakMinutes(breakField) * 60)
  }

  /** `setFocusMinutesFromTask`. */
  function FocusFromTaskStep(c: Clock, minutes: int): (r: Clock)
    ensures 60 <= r.focusSeconds <= 120 * 60
    ensures r.focusSeconds == Inputs.MinutesFromTask(minutes) * 60
    ensures minutes == 0 ==> r.focusSeconds == 25 * 60
    ensures 1 <= minutes <= 120 ==> r.focusSeconds == minutes * 60
    ensures !c.isRunning ==> r.isFocus && r.remaining == r.focusSeconds
    ensures c.isRunning ==> r.isFocus == c.isFocus && r.remaining == c.remaining
    ensures r.isRunning == c.isRunning && r.breakSeconds == c.breakSeconds
    ensures r.pomodoros == c.pomodoros && r.distractions == c.distractions
  {
    var f := Inputs.MinutesFromTask(minutes) * 60;
    if c.isRunning then c.(focusSeconds := f)
    else c.(focusSeconds := f, isFocus := true, remaining := f)
  }

  /** The distraction button. */
  function DistractionStep(c: Clock): (r: Clock)
    ensures r.distractions == c.distractions + (if c.isRunning && c.isFocus then 1 else 0)
    ensures r.(distractions := c.distractions) == c
  {
    if c.isRunning && c.isFocus then c.(distractions := c.distractions + 1) else c
  }

  /** `n` consecutive ticks. */
  function Run(c: Clock, n: nat): Clock
    decreases n
  {
    if n == 0 then c else Run(TickStep(c).clock, n - 1)
  }

  // ---------- many ticks ----------

  lemma {:induction false} RunSplit(c: Clock, a: nat, b: nat)
    ensures Run(c, a + b) == Run(Run(c, a), b)
    decreases a
  {
    if a > 0 {
      RunSplit(TickStep(c).clock, a - 1, b);
    }
  }

  /** Ticks before expiry only count down. */
  lemma {:induction false} CountDown(c: Clock, k: nat)
    requires k <= c.remaining
    ensures Run(c, k) == c.(remaining := c.remaining - k)
    decreases k
  {
    if k > 0 {
      CountDown(TickStep(c).clock, k - 1);
    }
  }

  /**
   * A focus interval with `remaining` seconds left ends on tick
   * `remaining + 1` (the tick that finds 0 is the one that flips), with one
   * more pomodoro and the configured break ahead.
   */
  lemma FocusCompletes(c: Clock)
    requires c.isFocus
    ensures Run(c, c.remaining) == c.(remaining := 0)
    ensures Run(c, c.remaining + 1) ==
            c.(isFocus := false, remaining := c.breakSeconds, pomodoros := c.pomodoros + 1)
  {
    CountDown(c, c.remaining);
    RunSplit(c, c.remaining, 1);
  }

  /** A break ends on tick `remaining + 1`, with no counter change. */
  lemma BreakCompletes(c: Clock)
    requires !c.isFocus
    ensures Run(c, c.remaining + 1) == c.(isFocus := true, remaining := c.focusSeconds)
  {
    CountDown(c, c.remaining);
    RunSplit(c, c.remaining, 1);
  }

  /** A full focus interval and break take `focusSeconds + breakSeconds + 2` ticks and earn one pomodoro. */
  lemma FullCycle(c: Clock)
    requires c.isFocus && c.remaining == c.focusSeconds
    ensures Run(c, c.focusSeconds + c.breakSeconds + 2) == c.(pomodoros := c.pomodoros + 1)
  {
    FocusCompletes(c);
    var mid := Run(c, c.remaining + 1);
    BreakCompletes(mid);
    RunSplit(c, c.remaining + 1, mid.remaining + 1);
  }

  /** Ticking never touches the settings, the running flag or distractions, and never loses a pomodoro. */
  lemma {:induction false} RunKeeps(c: Clock, n: nat)
    ensures var d := Run(c, n);
      d.isRunning == c.isRunning && d.focusSeconds == c.focusSeconds &&
      d.breakSeconds == c.breakSeconds && d.distractions == c.distractions &&
      c.pomodoros <= d.pomodoros <= c.pomodoros + n
    decreases n
  {
    if n > 0 {
      RunKeeps(TickStep(c).clock, n - 1);
    }
  }

  /**
   * Default settings (25 and 5 minutes): after Start, 1500 ticks show 00:00
   * still in focus; tick 1501 completes the pomodoro and starts a 300-second break.
   */
  lemma DefaultSessionScenario(pomodoros: int, distractions: int)
    ensures var c := StartStep(Initial(25, 5, pomodoros, distractions));
      Run(c, 1500).isFocus && Run(c, 1500).remaining == 0 && Run(c, 1500).pomodoros == pomodoros &&
      Run(c, 1501) == c.(isFocus := false, remaining := 300, pomodoros := pomodoros + 1)
  {
    FocusCompletes(StartStep(Initial(25, 5, pomodoros, distractions)));
  }

  // ---------- any sequence of actions ----------

  datatype Event =
    | Start
    | Pause
    | Reset
    | Tick
    | ApplySettings(focusField: Option<int>, breakField: Option<int>)
    | FocusFromTask(minutes: int)
    | Distraction

  function Step(c: Clock, e: Event): Clock
  {
    match e
    case Start => StartStep(c)
    case Pause => PauseStep(c)
    case Reset => ResetStep(c)
    case Tick => TickStep(c).clock
    case ApplySettings(f, b) => ApplySettingsStep(c, f, b)
    case FocusFromTask(m) => FocusFromTaskStep(c, m)
    case Distraction => DistractionStep(c)
  }

  function Replay(c: Clock, es: seq<Event>): Clock
    decreases |es|
  {
    if es == [] then c else Replay(Step(c, es[0]), es[1..])
  }

  /** Within a day the counters never decrease, whatever the user does. */
  lemma {:induction false} CountersNeverDecrease(c: Clock, es: seq<Event>)
    ensures c.pomodoros <= Replay(c, es).pomodoros
    ensures c.distractions <= Replay(c, es).distractions
    decreases |es|
  {
    if es != [] {
      CountersNeverDecrease(Step(c, es[0]), es[1..]);
    }
  }

  const MaxFocusSeconds := 120 * 60
  const MaxBreakSeconds := 60 * 60

  /** Durations inside the ranges the settings clamp to, and a countdown no longer than the longest focus. */
  predicate Bounded(c: Clock)
  {
    60 <= c.focusSeconds <= MaxFocusSeconds && 60 <= c.breakSeconds <= MaxBreakSeconds &&
    c.remaining <= MaxFocusSeconds
  }

  /** Once applied, the settings stay in range and the display never exceeds "120:00". */
  lemma {:induction false} BoundedPreserved(c: Clock, es: seq<Event>)
    requires Bounded(c)
    ensures Bounded(Replay(c, es))
    decreases |es|
  {
    if es != [] {
      assert Bounded(Step(c, es[0]));
      BoundedPreserved(Step(c, es[0]), es[1..]);
    }
  }

  /** Applying settings makes any clock whose countdown is within 120 minutes bounded. */
  lemma ApplySettingsBounds(c: Clock, focusField: Option<int>, breakField: Option<int>)
    requires c.remaining <= MaxFocusSeconds
    ensures Bounded(ApplySettingsStep(c, focusField, breakField))
  {
  }

  /** A distraction counts only while a focus interval is running. */
  lemma {:induction false} DistractionsNeedRunningFocus(c: Clock, es: seq<Event>)
    requires forall k :: 0 <= k < |es| ==> es[k] != Start
    requires !c.isRunning
    ensures Replay(c, es).distractions == c.distractions
    decreases |es|
  {
    if es != [] {
      assert es[0] != Start;
      DistractionsNeedRunningFocus(Step(c, es[0]), es[1..]);
    }
  }

  // ---------- the object ----------

  class Timer {
    var isRunning: bool
    var isFocus: bool
    var remaining: nat
    var focusSeconds: nat
    var breakSeconds: nat
    /** The day record whose counters the timer updates. */
    const day: Day.DayState

    function Snapshot(): Clock
      reads this, day
    {
      Clock(isRunning, isFocus, remaining, focusSeconds, breakSeconds, day.pomodoros, day.distractions)
    }

    /** Page load: durations from the form's initial minutes, idle in focus with a full countdown. */
    constructor (focusField: nat, breakField: nat, day: Day.DayState)
      ensures this.day == day
      ensures Snapshot() == Initial(focusField, breakField, day.pomodoros, day.distractions)
    {
      this.day := day;
      focusSeconds := focusField * 60;
      breakSeconds := breakField * 60;
      isRunning := false;
      isFocus := true;
      remaining := focusField * 60;
    }

    /** `startTimer`: a no-op when already running; otherwise only `isRunning` changes. */
    method Start()
      modifies this`isRunning
      ensures isRunning
      ensures old(isRunning) ==> Snapshot() == old(Snapshot())
      ensures Snapshot() == StartStep(old(Snapshot()))
    {
      if isRunning {
        return;
      }
      isRunning := true;
    }

    /** `stopTimer`. */
    method Stop()
      modifies this`isRunning
      ensures Snapshot() == old(Snapshot()).(isRunning := false)
    {
      isRunning := false;
    }

    /** The pause button: stops a running timer; `remaining` and the phase are kept. */
    method Pause()
      modifies this`isRunning
      ensures !isRunning && isFocus == old(isFocus) && remaining == old(remaining)
      ensures !old(isRunning) ==> Snapshot() == old(Snapshot())
      ensures Snapshot() == PauseStep(old(Snapshot()))
    {
      if isRunning {
        Stop();
      }
    }

    /** The reset button: idle, focus, and a countdown of the current focus setting. */
    method Reset()
      modifies this`isRunning, this`isFocus, this`remaining
      ensures !isRunning && isFocus && remaining == focusSeconds
      ensures Snapshot() == ResetStep(old(Snapshot()))
    {
      Stop();
      isFocus := true;
      remaining := focusSeconds;
    }

    /**
     * One tick: a positive countdown goes down by one and nothing else
     * changes; a countdown at 0 flips the phase, reloads the new phase's
     * duration, and counts a pomodoro when a focus interval ends.
     */
    method Tick() returns (cue: Cue)
      modifies this`isFocus, this`remaining, day`pomodoros
      ensures old(remaining) > 0 ==> Snapshot() == old(Snapshot()).(remaining := old(remaining) - 1)
      ensures old(remaining) == 0 ==>
                isFocus == !old(isFocus) &&
                remaining == (if isFocus then focusSeconds else breakSeconds) &&
                day.pomodoros == old(day.pomodoros) + (if old(isFocus) then 1 else 0)
      ensures cue == TenSecondsLeft <==> old(isFocus) && old(remaining) == 11
      ensures TickStep(old(Snapshot())) == TickResult(Snapshot(), cue)
    {
      if remaining > 0 {
        remaining := remaining - 1;
        cue := if isFocus && remaining == 10 then TenSecondsLeft else Silent;
      } else {
        if isFocus {
          day.pomodoros := day.pomodoros + 1;
          cue := FocusDone;
        } else {
          cue := BreakDone;
        }
        isFocus := !isFocus;
        remaining := if isFocus then focusSeconds else breakSeconds;
      }
    }

    /** "Apply settings": clamped durations; the running countdown and phase are left alone. */
    method ApplySettings(focusField: Option<int>, breakField: Option<int>)
      modifies this`focusSeconds, this`breakSeconds
      ensures focusSeconds == Inputs.FocusMinutes(focusField) * 60 && 60 <= focusSeconds <= MaxFocusSeconds
      ensures breakSeconds == Inputs.BreakMinutes(breakField) * 60 && 60 <= breakSeconds <= MaxBreakSeconds
      ensures Snapshot() == ApplySettingsStep(old(Snapshot()), focusField, breakField)
    {
      var f := Inputs.FocusMinutes(focusField);
      var b := Inputs.BreakMinutes(breakField);
      focusSeconds := f * 60;
      breakSeconds := b * 60;
    }

    /**
     * `setFocusMinutesFromTask`: retunes the focus duration; when idle it also
     * switches to focus with the new full countdown.
     */
    method SetFocusMinutesFromTask(minutes: int)
      modifies this`focusSeconds, this`isFocus, this`remaining
      ensures focusSeconds == Inputs.MinutesFromTask(minutes) * 60
      ensures minutes == 0 ==> focusSeconds == 25 * 60
      ensures !isRunning ==> isFocus && remaining == focusSeconds
      ensures isRunning ==> isFocus == old(isFocus) && remaining == old(remaining)
      ensures Snapshot() == FocusFromTaskStep(old(Snapshot()), minutes)
    {
      var m := Inputs.MinutesFromTask(minutes);
      focusSeconds := m * 60;
      if !isRunning {
        isFocus := true;
        remaining := focusSeconds;
      }
    }

    /** The distraction button: counts one distraction only while focusing with the timer running. */
    method LogDistraction() returns (logged: bool)
      modifies day`distractions
      ensures logged <==> isRunning && isFocus
      ensures day.distractions == old(day.distractions) + (if logged then 1 else 0)
      ensures Snapshot() == DistractionStep(old(Snapshot()))
    {
      if !isRunning || !isFocus {
        return false;
      }
      day.distractions := day.distractions + 1;
      logged := true;
    }
  }
}
