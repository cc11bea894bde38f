/** The rep countdown of islands/TimerControl.tsx.

    A workout of 20 minutes is cut into `reps` equal reps of `repLen`
    milliseconds. Four cells hold the state: the rep in progress, the time
    left in it, and the paused and started flags. A callback fired every
    100 ms (a tick) and four button handlers (start, pause, resume, stop)
    update them in place.

    The first half of the module states the state machine on values:
    `Step` is one tick, `Start`, `Pause`, `Resume` and `Stop` are the
    handlers, `Run` is a sequence of ticks, and the lemmas say what they
    guarantee. The class `Timer` at the end holds the four cells as fields
    and its methods are proved to perform exactly these transitions.
    Milliseconds are exact reals, so a `repLen` that is not a whole number
    (7 reps, say) is modelled without rounding.
 */
module TimerControl {

  import TimeFormat

  /** The length of the whole workout: 20 minutes in milliseconds. */
  const TotalMs: real := 1200000.0

  /** The tick period, which is also the amount a running tick takes off
      the time remaining. */
  const Increment: real := 100.0

  /** The length of one rep, `20 * 60 * 1000 / reps`. */
  function RepLen(reps: int): (r: real)
    requires reps >= 1
    ensures r > 0.0
    ensures r * reps as real == TotalMs
  {
    TotalMs / reps as real
  }

  /** The constants of one timer: the rep count and the rep length. */
  datatype Session = Session(reps: int, repLen: real)

  /** A session as the page creates it from a rep count of at least one. */
  predicate ValidSession(c: Session) {
    c.reps >= 1 && c.repLen == RepLen(c.reps)
  }

  /** The four state cells. */
  datatype TimerState = TimerState(currentRep: int, timeRemaining: real, isPaused: bool, isStarted: bool)

  /** The state when the component mounts: first rep, full time, neither
      started nor paused. */
  function Initial(c: Session): (r: TimerState)
    ensures c.reps >= 0 && c.repLen > 0.0 ==> Inv(c, r)
  {
    TimerState(0, c.repLen, false, false)
  }

  /** The bounds every reachable state keeps: the rep count lies in
      `0..reps`, and the time remaining never passes more than one tick
      below zero nor above a full rep. */
  predicate Inv(c: Session, s: TimerState) {
    0 <= s.currentRep <= c.reps && -Increment < s.timeRemaining <= c.repLen
  }

  /** One firing of the interval callback. Completion is tested first,
      then whether the rep is due (which is not gated by the flags), and
      only then the countdown, which runs when started and not paused.
      A tick never touches the pause flag, never starts the timer, never
      lowers the rep count and raises it by at most one, and keeps the
      bounds of `Inv`. */
  function Step(c: Session, s: TimerState): (r: TimerState)
    ensures r.isPaused == s.isPaused
    ensures r.isStarted ==> s.isStarted
    ensures s.currentRep <= r.currentRep <= s.currentRep + 1
    ensures c.repLen > 0.0 && Inv(c, s) ==> Inv(c, r)
  {
    if s.currentRep >= c.reps then
      s.(isStarted := false)
    else if s.timeRemaining <= 0.0 then
      s.(currentRep := s.currentRep + 1, timeRemaining := c.repLen)
    else if !s.isPaused && s.isStarted then
      s.(timeRemaining := s.timeRemaining - Increment)
    else
      s
  }

  /** Whether a tick from `s` plays the chime: exactly when it rolls over
      to the next rep. */
  predicate Chimes(c: Session, s: TimerState) {
    s.currentRep < c.reps && s.timeRemaining <= 0.0
  }

  /** Start, pause and resume each set their own flag and leave the
      other flag, the rep count and the time as they were. */
  function Start(s: TimerState): (r: TimerState)
    ensures r.isStarted && r.isPaused == s.isPaused
    ensures r.currentRep == s.currentRep && r.timeRemaining == s.timeRemaining
  {
    s.(isStarted := true)
  }

  function Pause(s: TimerState): (r: TimerState)
    ensures r.isPaused && r.isStarted == s.isStarted
    ensures r.currentRep == s.currentRep && r.timeRemaining == s.timeRemaining
  {
    s.(isPaused := true)
  }

  function Resume(s: TimerState): (r: TimerState)
    ensures !r.isPaused && r.isStarted == s.isStarted
    ensures r.currentRep == s.currentRep && r.timeRemaining == s.timeRemaining
  {
    s.(isPaused := false)
  }

  /** Stop from any state gives the state at mount: rep 0, a full rep of
      time, neither started nor paused. */
  function Stop(c: Session, s: TimerState): (r: TimerState)
    ensures r == Initial(c)
  {
    TimerState(0, c.repLen, false, false)
  }

  /** The state after `n` ticks with no handler in between. Any number of
      ticks keeps the bounds of `Inv`, never lowers the rep count, and
      raises it by at most one per tick. */
  function Run(c: Session, s: TimerState, n: nat): (r: TimerState)
    ensures s.currentRep <= r.currentRep <= s.currentRep + n
    ensures c.repLen > 0.0 && Inv(c, s) ==> Inv(c, r)
  {
    if n == 0 then s else Step(c, Run(c, s, n - 1))
  }

  /** The number of running ticks that bring a full rep to zero or below:
      `repLen / 100` rounded up. */
  function TicksPerRep(repLen: real): (k: nat)
    requires repLen > 0.0
    ensures k >= 1
    ensures (k - 1) as real * Increment < repLen <= k as real * Increment
  {
    var f := (repLen / Increment).Floor;
    if f as real * Increment == repLen then f else f + 1
  }

  // ---------------------------------------------------------------------
  // One tick

  /** The rules of a single tick, in the order the callback tests them. */
  lemma StepRules(c: Session, s: TimerState)
    ensures s.currentRep >= c.reps ==>
      Step(c, s).currentRep == s.currentRep && Step(c, s).timeRemaining == s.timeRemaining &&
      Step(c, s).isPaused == s.isPaused && !Step(c, s).isStarted
    ensures s.currentRep < c.reps && s.timeRemaining <= 0.0 ==>
      Step(c, s).currentRep == s.currentRep + 1 && Step(c, s).timeRemaining == c.repLen &&
      Step(c, s).isPaused == s.isPaused && Step(c, s).isStarted == s.isStarted
    ensures s.currentRep < c.reps && s.timeRemaining > 0.0 && !s.isPaused && s.isStarted ==>
      Step(c, s) == s.(timeRemaining := s.timeRemaining - Increment)
    ensures s.currentRep < c.reps && s.timeRemaining > 0.0 && (s.isPaused || !s.isStarted) ==>
      Step(c, s) == s
  {
  }

  /** A due rollover happens whether or not the timer is paused: the
      `timeRemaining <= 0` test comes before the pause test. */
  lemma RolloverIgnoresPause(c: Session, s: TimerState)
    requires s.currentRep < c.reps && s.timeRemaining <= 0.0
    ensures Step(c, s.(isPaused := true)) == Step(c, s).(isPaused := true)
    ensures Step(c, s.(isPaused := true)).currentRep == s.currentRep + 1
  {
  }

  /** A tick never lowers the rep count; it raises it by one exactly when
      it chimes. */
  lemma StepRepCount(c: Session, s: TimerState)
    ensures Step(c, s).currentRep == if Chimes(c, s) then s.currentRep + 1 else s.currentRep
  {
  }

  // ---------------------------------------------------------------------
  // The handlers

  /** Every handler keeps the bounds of `Inv`. */
  lemma HandlersKeepInv(c: Session, s: TimerState)
    requires c.repLen > 0.0 && Inv(c, s)
    ensures Inv(c, Start(s)) && Inv(c, Pause(s)) && Inv(c, Resume(s)) && Inv(c, Stop(c, s))
  {
  }

  // ---------------------------------------------------------------------
  // Runs of ticks

  /** Ticks compose: `a` ticks then `b` ticks are `a + b` ticks. */
  lemma {:induction false} RunAdd(c: Session, s: TimerState, a: nat, b: nat)
    ensures Run(c, s, a + b) == Run(c, Run(c, s, a), b)
  {
    if b > 0 {
      RunAdd(c, s, a, b - 1);
    }
  }

  /** While paused, with time left in an unfinished rep, ticks change
      nothing: the time remaining is frozen. */
  lemma {:induction false} PausedRunFrozen(c: Session, s: TimerState, n: nat)
    requires s.currentRep < c.reps && s.timeRemaining > 0.0 && s.isPaused
    ensures Run(c, s, n) == s
  {
    if n > 0 {
      PausedRunFrozen(c, s, n - 1);
    }
  }

  /** Pausing, letting any number of ticks pass, and resuming gives back
      the running state exactly, so the countdown continues from the value
      it had when paused. */
  lemma PauseThenResume(c: Session, s: TimerState, n: nat)
    requires s.currentRep < c.reps && s.timeRemaining > 0.0 && !s.isPaused
    ensures Run(c, Pause(s), n) == Pause(s)
    ensures Resume(Run(c, Pause(s), n)) == s
  {
    PausedRunFrozen(c, Pause(s), n);
  }

  /** While running and not paused, each tick takes exactly 100 ms off an
      unfinished rep as long as time was left before it. */
  lemma {:induction false} RunDecrements(c: Session, s: TimerState, j: nat)
    requires s.currentRep < c.reps && !s.isPaused && s.isStarted
    requires j == 0 || s.timeRemaining > (j - 1) as real * Increment
    ensures Run(c, s, j) == s.(timeRemaining := s.timeRemaining - j as real * Increment)
  {
    if j > 0 {
      RunDecrements(c, s, j - 1);
    }
  }

  /** One whole rep, run without pausing: the time stays positive for the
      first `TicksPerRep(repLen) - 1` ticks, the next tick brings it to
      zero or just below, the rep count does not move meanwhile, and one
      more tick chimes into the next rep with a full rep of time. */
  lemma RepCycle(c: Session, s: TimerState)
    requires c.repLen > 0.0
    requires s.currentRep < c.reps && s.timeRemaining == c.repLen && !s.isPaused && s.isStarted
    ensures var k := TicksPerRep(c.repLen);
      && (forall j | 0 <= j < k :: Run(c, s, j).currentRep == s.currentRep && Run(c, s, j).timeRemaining > 0.0)
      && Run(c, s, k).currentRep == s.currentRep
      && -Increment < Run(c, s, k).timeRemaining <= 0.0
      && Chimes(c, Run(c, s, k))
      && Run(c, s, k + 1) == s.(currentRep := s.currentRep + 1)
  {
    var k := TicksPerRep(c.repLen);
    forall j | 0 <= j < k
      ensures Run(c, s, j).currentRep == s.currentRep && Run(c, s, j).timeRemaining > 0.0
    {
      RunDecrements(c, s, j);
    }
    RunDecrements(c, s, k);
  }

  /** When `repLen` is a multiple of 100 ms the last decrement lands on
      exactly zero. */
  lemma RepCycleExact(c: Session, s: TimerState, k: nat)
    requires c.repLen > 0.0 && c.repLen == k as real * Increment
    requires s.currentRep < c.reps && s.timeRemaining == c.repLen && !s.isPaused && s.isStarted
    ensures Run(c, s, k) == s.(timeRemaining := 0.0)
    ensures Run(c, s, k + 1) == s.(currentRep := s.currentRep + 1)
  {
    assert TicksPerRep(c.repLen) == k;
    RepCycle(c, s);
    RunDecrements(c, s, k);
  }

  /** With 100 reps a rep lasts 12000 ms: 120 ticks count it down to zero
      and the 121st tick advances to the second rep. */
  lemma HundredReps()
    ensures RepLen(100) == 12000.0
    ensures var c := Session(100, RepLen(100));
      && Run(c, Start(Initial(c)), 120) == TimerState(0, 0.0, false, true)
      && Run(c, Start(Initial(c)), 121) == TimerState(1, 12000.0, false, true)
  {
    var c := Session(100, RepLen(100));
    RepCycleExact(c, Start(Initial(c)), 120);
  }

  /** Started from mount and never paused, the timer is at the start of
      rep `m` after `m` whole rep cycles. */
  lemma {:induction false} RunWholeReps(c: Session, m: nat)
    requires c.repLen > 0.0 && m <= c.reps
    ensures Run(c, Start(Initial(c)), m * (TicksPerRep(c.repLen) + 1)) == TimerState(m, c.repLen, false, true)
  {
    if m > 0 {
      var k := TicksPerRep(c.repLen);
      var s0 := Start(Initial(c));
      RunWholeReps(c, m - 1);
      assert m * (k + 1) == (m - 1) * (k + 1) + (k + 1);
      RunAdd(c, s0, (m - 1) * (k + 1), k + 1);
      RepCycle(c, TimerState(m - 1, c.repLen, false, true));
    }
  }

  /** Started from mount and never paused, the workout ends by itself:
      after `reps` rep cycles the counter shows `reps`, and the next tick
      clears the started flag, leaving the counter and the time as they
      are. Each cycle is one tick longer than the countdown it shows, so
      the whole workout takes `reps * 100` ms more than 20 minutes when
      `repLen` is a multiple of 100 ms. */
  lemma WorkoutCompletes(c: Session)
    requires ValidSession(c)
    ensures var n := c.reps * (TicksPerRep(c.repLen) + 1);
      && Run(c, Start(Initial(c)), n) == TimerState(c.reps, c.repLen, false, true)
      && Run(c, Start(Initial(c)), n + 1) == TimerState(c.reps, c.repLen, false, false)
    ensures c.repLen == TicksPerRep(c.repLen) as real * Increment ==>
      (c.reps * (TicksPerRep(c.repLen) + 1)) as real * Increment == TotalMs + c.reps as real * Increment
  {
    RunWholeReps(c, c.reps);
  }

  /** Once every rep is done, ticks only clear the started flag, so
      pressing start again ends at the next tick with nothing changed. */
  lemma {:induction false} CompletedStaysDone(c: Session, s: TimerState, n: nat)
    requires s.currentRep >= c.reps
    ensures Run(c, s, n + 1) == s.(isStarted := false)
    ensures Step(c, Start(s)) == s.(isStarted := false)
  {
    if n > 0 {
      CompletedStaysDone(c, s, n - 1);
    }
  }

  /** The countdown on screen: while a rep is due (its time at or just
      below zero) the display reads "0.0", never a negative value. */
  lemma DueRepShowsZero(c: Session, s: TimerState)
    requires Inv(c, s) && s.timeRemaining <= 0.0
    ensures TimeFormat.FormatTime(s.timeRemaining) == "0.0"
  {
    if s.timeRemaining == 0.0 {
      TimeFormat.ParseSecondsUnique(0.0, 0, 0);
    }
  }

  // ---------------------------------------------------------------------
  // The component's state cells

  /** The timer component: `reps` and `repLen` are fixed when it is
      created; the four signals are fields updated in place. */
  class Timer {
    const reps: int
    const repLen: real
    var currentRep: int
    var timeRemaining: real
    var isPaused: bool
    var isStarted: bool

    function Params(): Session {
      Session(reps, repLen)
    }

    function State(): TimerState
      reads this
    {
      TimerState(currentRep, timeRemaining, isPaused, isStarted)
    }

    ghost predicate Valid()
      reads this
    {
      ValidSession(Params()) && Inv(Params(), State())
    }

    /** Mounting the component with a rep count of at least one. */
    constructor (reps: int)
      requires reps >= 1
      ensures Valid()
      ensures Params() == Session(reps, RepLen(reps))
      ensures State() == Initial(Params())
    {
      this.reps := reps;
      this.repLen := RepLen(reps);
      currentRep := 0;
      timeRemaining := RepLen(reps);
      isPaused := false;
      isStarted := false;
    }

    /** The interval callback; `chime` tells whether it plays the sound. */
    method Tick() returns (chime: bool)
      requires Valid()
      modifies this
      ensures Valid()
      ensures State() == Step(Params(), old(State()))
      ensures chime == Chimes(Params(), old(State()))
    {
      chime := false;
      if currentRep >= reps {
        isStarted := false;
      } else {
        if timeRemaining <= 0.0 {
          chime := true;
          currentRep := currentRep + 1;
          timeRemaining := repLen;
        } else if !isPaused && isStarted {
          timeRemaining := timeRemaining - Increment;
        }
      }
    }

    method HandleStart()
      requires Valid()
      modifies this
      ensures Valid()
      ensures State() == Start(old(State()))
    {
      isStarted := true;
    }

    method HandlePause()
      requires Valid()
      modifies this
      ensures Valid()
      ensures State() == Pause(old(State()))
    {
      isPaused := true;
    }

    method HandleResume()
      requires Valid()
      modifies this
      ensures Valid()
      ensures State() == Resume(old(State()))
    {
      isPaused := false;
    }

    method HandleStop()
      requires Valid()
      modifies this
      ensures Valid()
      ensures State() == Stop(Params(), old(State()))
    {
      isStarted := false;
      isPaused := false;
      currentRep := 0;
      timeRemaining := repLen;
    }
  }
}
