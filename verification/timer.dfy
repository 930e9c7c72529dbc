/** The attempt timer: an idle/thinking/coding/review/finished state
    machine with a 600-second countdown per phase, which reports one
    timing record through `onComplete` when the attempt finishes. */
module Timer {
  import opened Text

  const ThinkTimeLimit: int := 600
  const CodeTimeLimit: int := 600
  const ReviewTimeLimit: int := 600

  datatype Phase = Idle | Thinking | Coding | Review | Finished

  /** The phases in which a countdown runs and the controls are shown. */
  predicate Running(p: Phase) {
    p.Thinking? || p.Coding? || p.Review?
  }

  /** The object passed to `onComplete`. */
  datatype Timing = Timing(timeThink: int, timeCode: int, sawSolution: bool)

  // ---------------------------------------------------------------------
  // The clock display
  // ---------------------------------------------------------------------

  /** `formatTime`: minutes and seconds, each zero-padded to two digits,
      separated by a colon. */
  function FormatClock(seconds: nat): (r: string)
    ensures |r| >= 5 && r[|r| - 3] == ':'
    ensures IsDigit(r[|r| - 2]) && IsDigit(r[|r| - 1])
    ensures DigitValue(r[|r| - 2]) * 10 + DigitValue(r[|r| - 1]) == seconds % 60
  {
    TwoDigitField(seconds % 60);
    PadStart2(NatToString(seconds / 60)) + ":" + PadStart2(NatToString(seconds % 60))
  }

  /** The number of seconds an `mm:ss` display denotes. */
  function ClockSeconds(r: string): int
    requires |r| == 5 && IsDigit(r[0]) && IsDigit(r[1]) && IsDigit(r[3]) && IsDigit(r[4])
  {
    (DigitValue(r[0]) * 10 + DigitValue(r[1])) * 60 + DigitValue(r[3]) * 10 + DigitValue(r[4])
  }

  /** A number below 100 is rendered as exactly two digits denoting it. */
  lemma TwoDigitField(n: nat)
    requires n < 100
    ensures var p := PadStart2(NatToString(n));
      |p| == 2 && IsDigit(p[0]) && IsDigit(p[1]) && DigitValue(p[0]) * 10 + DigitValue(p[1]) == n
  {
    var s := NatToString(n);
    if |s| == 2 {
      assert DigitsValue(s) == DigitsValue(s[..1]) * 10 + DigitValue(s[1]);
      assert DigitsValue(s[..1]) == DigitsValue(s[..0]) * 10 + DigitValue(s[0]);
    } else {
      assert DigitsValue(s) == DigitsValue(s[..0]) * 10 + DigitValue(s[0]);
      assert PadStart2(s) == ['0', s[0]];
    }
  }

  /** Below 100 minutes the display has the form `mm:ss`, the first field
      holding the whole minutes and the second the seconds below 60, and
      reading it back gives the number of seconds displayed. */
  lemma FormatClockRoundTrip(seconds: nat)
    requires seconds < 6000
    ensures var r := FormatClock(seconds);
      |r| == 5 && r[2] == ':' && IsDigit(r[0]) && IsDigit(r[1]) && IsDigit(r[3]) && IsDigit(r[4])
      && DigitValue(r[0]) * 10 + DigitValue(r[1]) == seconds / 60
      && DigitValue(r[3]) * 10 + DigitValue(r[4]) == seconds % 60
      && ClockSeconds(r) == seconds
  {
    TwoDigitField(seconds / 60);
    TwoDigitField(seconds % 60);
  }

  /** `formatTime(600)` is `10:00`, the text shown while idle. */
  lemma FullBudgetDisplay()
    ensures FormatClock(ThinkTimeLimit) == "10:00"
  {
    assert NatToString(10) == "10" by {
      assert NatToString(1) == "1";
    }
  }

  // ---------------------------------------------------------------------
  // The state machine as values
  // ---------------------------------------------------------------------

  /** The component's state cells (`phase`, `time`, `isActive`), its refs
      (`timeThink`, `timeCode`, `sawSolution`) and the records handed to
      `onComplete` so far. */
  datatype TimerState = TimerState(
    phase: Phase,
    time: int,
    isActive: bool,
    timeThink: int,
    timeCode: int,
    sawSolution: bool,
    emitted: seq<Timing>)

  /** The state on mount. */
  function Initial(): TimerState {
    TimerState(Idle, ThinkTimeLimit, false, 0, 0, false, [])
  }

  /** What holds in every state reachable through the controls the
      component shows: the countdown and the recorded times stay within
      0..600, a countdown runs exactly in the three running phases, the
      solution flag matches the phase, and exactly one record has been
      emitted once (and only once) the attempt is finished. */
  ghost predicate Inv(s: TimerState) {
    && 0 <= s.time <= 600
    && 0 <= s.timeThink <= 600
    && 0 <= s.timeCode <= 600
    && (s.isActive <==> Running(s.phase))
    && (s.phase == Idle ==> s.time == ThinkTimeLimit && !s.sawSolution)
    && (s.phase.Thinking? || s.phase.Coding? ==> !s.sawSolution)
    && (s.phase == Review ==> s.sawSolution)
    && |s.emitted| == (if s.phase == Finished then 1 else 0)
    && (s.phase == Finished ==> s.emitted[0] == Timing(s.timeThink, s.timeCode, s.sawSolution))
  }

  /** `handleStart`: from `idle` it opens `thinking` with a full, running
      countdown, keeping the invariant and emitting nothing. */
  function StartStep(s: TimerState): (r: TimerState)
    ensures Inv(s) && s.phase == Idle ==> Inv(r)
    ensures r.phase == Thinking && r.time == ThinkTimeLimit && r.isActive && r.emitted == s.emitted
  {
    s.(phase := Thinking, time := ThinkTimeLimit, isActive := true)
  }

  /** The start-signal effect: starts only from `idle`. */
  function StartSignalStep(s: TimerState, startSignal: bool): (r: TimerState)
    ensures Inv(s) ==> Inv(r)
  {
    if startSignal && s.phase == Idle then StartStep(s) else s
  }

  /** `handleNextPhase`: keeps the invariant; `thinking` moves on to
      `coding`, and `coding` or `review` ends the attempt. */
  function NextPhaseStep(s: TimerState): (r: TimerState)
    ensures Inv(s) ==> Inv(r)
    ensures s.phase == Thinking ==> r.phase == Coding
    ensures s.phase == Coding || s.phase == Review ==> r.phase == Finished && !r.isActive
  {
    match s.phase
    case Thinking =>
      s.(timeThink := ThinkTimeLimit - s.time, phase := Coding, time := CodeTimeLimit, isActive := true)
    case Coding =>
      var timeCode := CodeTimeLimit - s.time;
      s.(isActive := false, timeCode := timeCode, sawSolution := false, phase := Finished,
         emitted := s.emitted + [Timing(s.timeThink, timeCode, false)])
    case Review =>
      s.(isActive := false, phase := Finished,
         emitted := s.emitted + [Timing(s.timeThink, s.timeCode, s.sawSolution)])
    case _ =>
      s.(isActive := false)
  }

  /** `handleSeeSolution`: from a running phase it keeps the invariant and
      opens `review` with a full budget and the flag set. */
  function SeeSolutionStep(s: TimerState): (r: TimerState)
    ensures Inv(s) && Running(s.phase) ==> Inv(r)
    ensures r.phase == Review && r.time == ReviewTimeLimit && r.isActive && r.sawSolution
  {
    var timeThink := if s.phase == Thinking then ThinkTimeLimit - s.time else s.timeThink;
    var timeCode :=
      if s.phase == Coding then CodeTimeLimit - s.time
      else if s.phase == Thinking then 0
      else s.timeCode;
    s.(sawSolution := true, timeThink := timeThink, timeCode := timeCode,
       phase := Review, time := ReviewTimeLimit, isActive := true)
  }

  /** One run of the countdown effect: a one-second tick while time is
      left, the automatic advance once it has run out. */
  function TickStep(s: TimerState): (r: TimerState)
    ensures Inv(s) ==> Inv(r)
    ensures Inv(s) ==> r.time <= s.time || r.phase != s.phase
  {
    if s.isActive && s.time > 0 then s.(time := s.time - 1)
    else if s.isActive && s.time == 0 then NextPhaseStep(s)
    else s
  }

  /** The inputs the component reacts to. The two buttons are rendered
      only in some phases, so pressing them elsewhere does nothing. */
  datatype Event = StartSignal(on: bool) | NextPhaseButton | SeeSolutionButton | Tick

  /** One input; every input keeps the invariant. */
  function Apply(s: TimerState, e: Event): (r: TimerState)
    ensures Inv(s) ==> Inv(r)
  {
    match e
    case StartSignal(on) => StartSignalStep(s, on)
    case NextPhaseButton => if Running(s.phase) then NextPhaseStep(s) else s
    case SeeSolutionButton => if Running(s.phase) then SeeSolutionStep(s) else s
    case Tick => TickStep(s)
  }

  function Run(s: TimerState, events: seq<Event>): TimerState
    decreases |events|
  {
    if events == [] then s else Run(Apply(s, events[0]), events[1..])
  }

  // ---------------------------------------------------------------------
  // Properties of the transitions
  // ---------------------------------------------------------------------

  lemma InitialInv()
    ensures Inv(Initial())
  {
  }

  /** The start signal enters `thinking` with a full, running countdown,
      and only from `idle`; otherwise nothing changes. */
  lemma StartSignalEntersThinking(s: TimerState, startSignal: bool)
    ensures var t := StartSignalStep(s, startSignal);
      if startSignal && s.phase == Idle
      then t.phase == Thinking && t.time == ThinkTimeLimit && t.isActive && t.emitted == s.emitted
      else t == s
  {
  }

  /** Leaving `thinking` records the elapsed think time and opens `coding`
      with a fresh budget; nothing is emitted yet. */
  lemma ThinkingAdvance(s: TimerState)
    requires Inv(s) && s.phase == Thinking
    ensures var t := NextPhaseStep(s);
      t.phase == Coding && t.time == CodeTimeLimit && t.isActive
      && t.timeThink == ThinkTimeLimit - s.time && 0 <= t.timeThink <= 600
      && t.emitted == s.emitted
  {
  }

  /** Leaving `coding` emits the think time, the elapsed code time and
      `sawSolution = false`, and ends the attempt. */
  lemma CodingAdvance(s: TimerState)
    requires Inv(s) && s.phase == Coding
    ensures var t := NextPhaseStep(s);
      t.phase == Finished && !t.isActive
      && t.emitted == s.emitted + [Timing(s.timeThink, CodeTimeLimit - s.time, false)]
  {
  }

  /** Leaving `review` emits the stored times with `sawSolution = true`. */
  lemma ReviewAdvance(s: TimerState)
    requires Inv(s) && s.phase == Review
    ensures var t := NextPhaseStep(s);
      t.phase == Finished && !t.isActive
      && t.emitted == s.emitted + [Timing(s.timeThink, s.timeCode, true)]
  {
  }

  /** "See solution" always opens `review` with a full budget and sets the
      flag; from `thinking` it records the think time and zeroes the code
      time, from `coding` it records the code time, and from `review` it
      keeps both times. */
  lemma SeeSolutionRecords(s: TimerState)
    requires Inv(s) && Running(s.phase)
    ensures var t := SeeSolutionStep(s);
      && t.phase == Review && t.time == ReviewTimeLimit && t.isActive && t.sawSolution
      && t.emitted == s.emitted
      && (s.phase == Thinking ==> t.timeThink == ThinkTimeLimit - s.time && t.timeCode == 0)
      && (s.phase == Coding ==> t.timeThink == s.timeThink && t.timeCode == CodeTimeLimit - s.time)
      && (s.phase == Review ==> t.timeThink == s.timeThink && t.timeCode == s.timeCode)
  {
  }

  /** Seeing the solution with 540 seconds of coding left records 60
      seconds of coding, and the eventual record says the solution was seen. */
  lemma SeeSolutionAt540()
    ensures var s := TimerState(Coding, 540, true, 30, 0, false, []);
      var t := SeeSolutionStep(s);
      t.timeCode == 60 && t.phase == Review
      && NextPhaseStep(t).emitted == [Timing(30, 60, true)]
  {
  }

  /** A tick takes exactly one second off a running countdown that has time
      left; at zero it performs the same advance as the phase button; a
      stopped countdown is left alone. */
  lemma TickBehaviour(s: TimerState)
    requires Inv(s)
    ensures s.isActive && s.time > 0 ==> TickStep(s) == s.(time := s.time - 1)
    ensures s.isActive && s.time == 0 ==> TickStep(s) == NextPhaseStep(s)
    ensures !s.isActive ==> TickStep(s) == s
  {
  }

  /** Any sequence of inputs from mount keeps the invariant; in particular
      the countdown stays within 0..600 and at most one record is emitted,
      exactly when the attempt has finished. */
  lemma {:induction false} RunInv(s: TimerState, events: seq<Event>)
    requires Inv(s)
    ensures Inv(Run(s, events))
    ensures 0 <= Run(s, events).time <= 600
    ensures |Run(s, events).emitted| <= 1
    decreases |events|
  {
    if events != [] {
      RunInv(Apply(s, events[0]), events[1..]);
    }
  }

  /** Once finished, no further input changes anything: the attempt's
      record is final. */
  lemma {:induction false} FinishedIsFinal(s: TimerState, events: seq<Event>)
    requires Inv(s) && s.phase == Finished
    ensures Run(s, events) == s
    decreases |events|
  {
    if events != [] {
      assert Apply(s, events[0]) == s;
      FinishedIsFinal(s, events[1..]);
    }
  }

  /** `n` consecutive ticks. */
  function Ticks(s: TimerState, n: nat): TimerState
    decreases n
  {
    if n == 0 then s else Ticks(TickStep(s), n - 1)
  }

  /** Left alone, a running `thinking` countdown with `t` seconds left
      reaches zero after `t` ticks and moves to `coding`, with the whole
      think budget recorded and a fresh code budget, on the next tick. */
  lemma {:induction false} ThinkingTimesOut(s: TimerState)
    requires Inv(s) && s.phase == Thinking
    ensures var t := Ticks(s, s.time + 1);
      t.phase == Coding && t.time == CodeTimeLimit && t.isActive
      && t.timeThink == ThinkTimeLimit && t.emitted == s.emitted
    decreases s.time
  {
    if s.time > 0 {
      ThinkingTimesOut(TickStep(s));
    }
  }

  // ---------------------------------------------------------------------
  // The component
  // ---------------------------------------------------------------------

  class AttemptTimer {
    var phase: Phase
    var time: int
    var isActive: bool
    var timeThink: int
    var timeCode: int
    var sawSolution: bool
    /** Every record passed to `onComplete`, in order. */
    var emitted: seq<Timing>

    ghost function Snapshot(): TimerState
      reads this
    {
      TimerState(phase, time, isActive, timeThink, timeCode, sawSolution, emitted)
    }

    ghost predicate Valid()
      reads this
    {
      Inv(Snapshot())
    }

    constructor ()
      ensures Valid() && Snapshot() == Initial()
    {
      phase := Idle;
      time := ThinkTimeLimit;
      isActive := false;
      timeThink := 0;
      timeCode := 0;
      sawSolution := false;
      emitted := [];
    }

    /** The large clock: `10:00` while idle, the remaining time otherwise;
        it always reads back as the remaining time. */
    function Display(): (r: string)
      reads this
      requires Valid()
      ensures |r| == 5 && r[2] == ':'
      ensures IsDigit(r[0]) && IsDigit(r[1]) && IsDigit(r[3]) && IsDigit(r[4])
      ensures DigitValue(r[0]) * 10 + DigitValue(r[1]) == time / 60
      ensures DigitValue(r[3]) * 10 + DigitValue(r[4]) == time % 60
      ensures ClockSeconds(r) == time
    {
      FormatClockRoundTrip(time);
      if phase == Idle then
        FullBudgetDisplay();
        "10:00"
      else
        FormatClock(time)
    }

    /** `handleStart`; its one caller, the start-signal effect, runs it only while idle. */
    method Start()
      requires Valid() && phase == Idle
      modifies this
      ensures Valid() && Snapshot() == StartStep(old(Snapshot()))
    {
      phase := Thinking;
      time := ThinkTimeLimit;
      isActive := true;
    }

    /** The effect that listens for the parent's start signal. */
    method OnStartSignal(startSignal: bool)
      requires Valid()
      modifies this
      ensures Valid() && Snapshot() == StartSignalStep(old(Snapshot()), startSignal)
    {
      if startSignal && phase == Idle {
        Start();
      }
    }

    /** `handleNextPhase`. */
    method NextPhase()
      requires Valid()
      modifies this
      ensures Valid() && Snapshot() == NextPhaseStep(old(Snapshot()))
    {
      isActive := false;
      if phase == Thinking {
        timeThink := ThinkTimeLimit - time;
        phase := Coding;
        time := CodeTimeLimit;
        isActive := true;
      } else if phase == Coding {
        timeCode := CodeTimeLimit - time;
        sawSolution := false;
        emitted := emitted + [Timing(timeThink, timeCode, sawSolution)];
        phase := Finished;
      } else if phase == Review {
        emitted := emitted + [Timing(timeThink, timeCode, sawSolution)];
        phase := Finished;
      }
    }

    /** `handleSeeSolution`; its button is rendered only in the running phases. */
    method SeeSolution()
      requires Valid() && Running(phase)
      modifies this
      ensures Valid() && Snapshot() == SeeSolutionStep(old(Snapshot()))
    {
      isActive := false;
      sawSolution := true;
      if phase == Coding {
        timeCode := CodeTimeLimit - time;
      } else if phase == Thinking {
        timeThink := ThinkTimeLimit - time;
        timeCode := 0;
      }
      phase := Review;
      time := ReviewTimeLimit;
      isActive := true;
    }

    /** The countdown effect, run once per elapsed second. */
    method Tick()
      requires Valid()
      modifies this
      ensures Valid() && Snapshot() == TickStep(old(Snapshot()))
    {
      if isActive && time > 0 {
        time := time - 1;
      } else if isActive && time == 0 {
        NextPhase();
      }
    }
  }
}
