/** The firmware's shared state after startup, seen as a value, and the atomic
    events that change it: the 10-tick callback UpdateLeds, the 500-tick callback
    UpdateStatusLeds, one step of the main loop, and the LED driver finishing a
    transmission. The timer interrupt may preempt the main loop between any two
    of its steps, so an execution is any sequence of these events. */
module ControlLoop {
  import opened SystemStates
  import opened StatusLeds

  /** The largest 12-bit grayscale value the driver accepts. */
  const GsMax := 4095

  /** Where the main loop's current iteration stands. */
  datatype Pc =
    | AwaitConsumption   // spinning while the flag is positive (or not running)
    | AwaitTransmission  // spinning while the driver still transmits
    | FrameFilled        // a new frame is written, the commit is next

  /** The firmware's shared state.
      - flag: dataAvailableFlag (unbounded here, see ControlLoop.Inv)
      - gsUpdate: the driver's "grayscale update pending" bit
      - frame: the driver's grayscale buffer, one value per channel
      - channels: Tlc5941_N * 16 */
  datatype Snapshot = Snapshot(
    state: SystemState,
    flag: int,
    gsUpdate: bool,
    ledCounter: int,
    channels: int,
    frame: seq<int>,
    leds: Indicators,
    pc: Pc)

  datatype Event =
    | Tick10                // UpdateLeds fires
    | Tick500               // UpdateStatusLeds fires
    | MainLoop              // the main loop takes one step
    | TransmissionComplete  // the driver has sent the frame and cleared gsUpdate

  /** The placeholder frame: channel k at full intensity, every other channel off. */
  function OneHot(n: nat, k: int): seq<int> {
    seq(n, i => if i == k then GsMax else 0)
  }

  /** The state right after startup, before the timer starts. */
  function Boot(channels: nat, state: SystemState): Snapshot {
    Snapshot(state, 1, false, 0, channels, seq(channels, _ => 0), AllOff, AwaitConsumption)
  }

  /** UpdateLeds: consume one frame while running; request a transmission unless
      the flag has gone negative. */
  function UpdateLeds(s: Snapshot): Snapshot {
    var flag := if s.state == Running then s.flag - 1 else s.flag;
    s.(flag := flag, gsUpdate := if flag >= 0 then true else s.gsUpdate)
  }

  /** UpdateStatusLeds: issue the state's three indicator commands. */
  function UpdateStatusLeds(s: Snapshot): Snapshot {
    s.(leds := Render(PatternOf(s.state), s.leds))
  }

  /** One step of the main loop. A busy-wait whose condition still holds leaves
      the state as it is. */
  function MainLoopStep(s: Snapshot): Snapshot
    requires s.channels > 0
  {
    if s.state != Running then s
    else
      match s.pc
      case AwaitConsumption =>
        if s.flag > 0 then s else s.(pc := AwaitTransmission)
      case AwaitTransmission =>
        if s.gsUpdate then s
        else s.(frame := OneHot(s.channels, s.ledCounter),
                ledCounter := (s.ledCounter + 1) % s.channels,
                pc := FrameFilled)
      case FrameFilled =>
        if s.flag < 0 then s.(state := ErrorTimeout, pc := AwaitConsumption)
        else s.(flag := s.flag + 1, pc := AwaitConsumption)
  }

  function Step(s: Snapshot, e: Event): (r: Snapshot)
    requires s.channels > 0
    ensures r.channels == s.channels
  {
    match e
    case Tick10 => UpdateLeds(s)
    case Tick500 => UpdateStatusLeds(s)
    case MainLoop => MainLoopStep(s)
    case TransmissionComplete => s.(gsUpdate := false)
  }

  /** The state after the events of `schedule`, in order. */
  function Run(s: Snapshot, schedule: seq<Event>): (r: Snapshot)
    requires s.channels > 0
    ensures r.channels == s.channels
    decreases |schedule|
  {
    if schedule == [] then s else Run(Step(s, schedule[0]), schedule[1..])
  }

  /** What holds in every state the firmware reaches after startup. */
  ghost predicate Inv(s: Snapshot) {
    && 0 < s.channels
    && |s.frame| == s.channels
    && 0 <= s.ledCounter < s.channels
    // the flag never exceeds 1
    && s.flag <= 1
    // startup always leaves Initializing
    && s.state != Initializing
    // outside Running the main loop only spins at its top
    && (s.state != Running ==> s.pc == AwaitConsumption)
    // past the wait at line 197 the flag is at most 0
    && (s.pc != AwaitConsumption ==> s.flag <= 0)
    // between filling and committing, no transmission is pending
    && (s.pc == FrameFilled ==> !s.gsUpdate)
    // a timeout leaves the flag negative as a latched fault
    && (s.state == ErrorTimeout ==> s.flag < 0)
  }

  // ---------------------------------------------------------------------------
  // Single events

  /** The effect of the 10-tick callback on the flag and the update request. */
  lemma UpdateLedsEffect(s: Snapshot)
    ensures UpdateLeds(s).flag == (if s.state == Running then s.flag - 1 else s.flag)
    ensures !s.gsUpdate ==> (UpdateLeds(s).gsUpdate <==> UpdateLeds(s).flag >= 0)
    ensures s.gsUpdate ==> UpdateLeds(s).gsUpdate
    ensures UpdateLeds(s).(flag := s.flag, gsUpdate := s.gsUpdate) == s
  {
  }

  /** The commit at the end of an iteration: a negative flag means the previous
      frame was consumed twice, and the state becomes ErrorTimeout with the flag
      left as it is; otherwise the flag is re-armed and the state kept. */
  lemma CommitEffect(s: Snapshot)
    requires s.channels > 0 && s.state == Running && s.pc == FrameFilled
    ensures s.flag < 0 ==> MainLoopStep(s) == s.(state := ErrorTimeout, pc := AwaitConsumption)
    ensures s.flag >= 0 ==> MainLoopStep(s) == s.(flag := s.flag + 1, pc := AwaitConsumption)
  {
  }

  /** Filling a frame lights exactly the channel at the old counter and moves the
      counter on by one, modulo the channel count. */
  lemma FillEffect(s: Snapshot)
    requires Inv(s) && s.state == Running && s.pc == AwaitTransmission && !s.gsUpdate
    ensures var t := MainLoopStep(s);
      && |t.frame| == s.channels
      && (forall i :: 0 <= i < s.channels ==> (t.frame[i] == GsMax <==> i == s.ledCounter))
      && (forall i :: 0 <= i < s.channels && i != s.ledCounter ==> t.frame[i] == 0)
      && t.ledCounter == (s.ledCounter + 1) % s.channels
      && 0 <= t.ledCounter < s.channels
      && t.flag == s.flag && t.state == s.state
  {
  }

  /** The 10-tick callback calls for a transmission (its new flag is at least 0)
      only while the main loop waits at its top, so the driver is never asked to
      send a frame that is being written. */
  lemma RequestOnlyWhenProducerIdle(s: Snapshot)
    requires Inv(s) && UpdateLeds(s).flag >= 0
    ensures s.pc == AwaitConsumption
  {
  }

  /** The main loop writes the frame only while no transmission is pending. */
  lemma FrameWrittenOnlyWhenIdle(s: Snapshot)
    requires s.channels > 0 && MainLoopStep(s).frame != s.frame
    ensures !s.gsUpdate && s.pc == AwaitTransmission
  {
  }

  lemma StepPreservesInv(s: Snapshot, e: Event)
    requires Inv(s)
    ensures Inv(Step(s, e))
  {
  }

  lemma BootInv(channels: nat, state: SystemState)
    requires channels > 0
    requires state == Running || state == ErrorNoSdCard || state == ErrorNoLpf
    ensures Inv(Boot(channels, state))
  {
  }

  // ---------------------------------------------------------------------------
  // Executions

  lemma {:induction false} RunAppend(s: Snapshot, a: seq<Event>, b: seq<Event>)
    requires s.channels > 0
    ensures Run(s, a + b) == Run(Run(s, a), b)
    decreases |a|
  {
    if a == [] {
      assert a + b == b;
    } else {
      assert (a + b)[0] == a[0];
      assert (a + b)[1..] == a[1..] + b;
      RunAppend(Step(s, a[0]), a[1..], b);
    }
  }

  /** Every reachable state satisfies Inv; in particular the flag never exceeds 1. */
  lemma {:induction false} RunPreservesInv(s: Snapshot, schedule: seq<Event>)
    requires Inv(s)
    ensures Inv(Run(s, schedule))
    ensures Run(s, schedule).flag <= 1
    decreases |schedule|
  {
    if schedule != [] {
      StepPreservesInv(s, schedule[0]);
      RunPreservesInv(Step(s, schedule[0]), schedule[1..]);
    }
  }

  /** The only change of state after startup is Running to ErrorTimeout. */
  lemma {:induction false} OnlyTimeoutLeavesRunning(s: Snapshot, schedule: seq<Event>)
    requires s.channels > 0
    ensures var t := Run(s, schedule);
      t.state == s.state || (s.state == Running && t.state == ErrorTimeout)
    decreases |schedule|
  {
    if schedule != [] {
      OnlyTimeoutLeavesRunning(Step(s, schedule[0]), schedule[1..]);
    }
  }

  /** Error states are terminal: once not Running, no event changes the state,
      the flag, the frame or the counter; only the indicators and the driver's
      update bit still change. */
  lemma {:induction false} ErrorStatesFrozen(s: Snapshot, schedule: seq<Event>)
    requires Inv(s) && s.state.IsTerminal()
    ensures var t := Run(s, schedule);
      t == s.(gsUpdate := t.gsUpdate, leds := t.leds)
    decreases |schedule|
  {
    if schedule != [] {
      StepPreservesInv(s, schedule[0]);
      ErrorStatesFrozen(Step(s, schedule[0]), schedule[1..]);
    }
  }

  /** A negative flag latches: it never rises again, and no transmission is
      requested while it is negative. */
  lemma {:induction false} NegativeFlagLatches(s: Snapshot, schedule: seq<Event>)
    requires s.channels > 0 && s.flag < 0
    ensures var t := Run(s, schedule);
      t.flag <= s.flag && (t.gsUpdate ==> s.gsUpdate)
    decreases |schedule|
  {
    if schedule != [] {
      NegativeFlagLatches(Step(s, schedule[0]), schedule[1..]);
    }
  }

  // ---------------------------------------------------------------------------
  // Scenarios

  /** One on-time cycle: a consumption, the transmission it requests, and one
      complete iteration of the main loop. */
  function Cycle(): seq<Event> {
    [Tick10, TransmissionComplete, MainLoop, MainLoop, MainLoop]
  }

  function Cycles(n: nat): seq<Event> {
    if n == 0 then [] else Cycles(n - 1) + Cycle()
  }

  /** The state the firmware is in at the top of the main loop with a frame armed. */
  ghost predicate Armed(s: Snapshot) {
    Inv(s) && s.state == Running && s.flag == 1 && s.pc == AwaitConsumption && !s.gsUpdate
  }

  lemma OneCycle(s: Snapshot)
    requires Armed(s)
    ensures var t := Run(s, Cycle());
      && Armed(t)
      && t.ledCounter == (s.ledCounter + 1) % s.channels
      && t.frame == OneHot(s.channels, s.ledCounter)
  {
  }

  /** When every frame is produced in time, the firmware stays Running with the
      flag back at 1 after each cycle, and the lit channel walks round the LEDs. */
  lemma {:induction false} OnTimeCyclesKeepRunning(s: Snapshot, n: nat)
    requires Armed(s)
    ensures var t := Run(s, Cycles(n));
      && Armed(t)
      && t.ledCounter == (s.ledCounter + n) % s.channels
      && (n > 0 ==> t.frame == OneHot(s.channels, (s.ledCounter + n - 1) % s.channels))
  {
    if n > 0 {
      OnTimeCyclesKeepRunning(s, n - 1);
      var m := Run(s, Cycles(n - 1));
      RunAppend(s, Cycles(n - 1), Cycle());
      OneCycle(m);
      ModStep(s.ledCounter + n - 1, s.channels);
    }
  }

  lemma ModStep(a: nat, m: nat)
    requires m > 0
    ensures (a % m + 1) % m == (a + 1) % m
  {
    var q, r := a / m, a % m;
    if r + 1 < m {
      ModUnique(a + 1, m, q, r + 1);
      ModUnique(r + 1, m, 0, r + 1);
    } else {
      ModUnique(a + 1, m, q + 1, 0);
      ModUnique(r + 1, m, 1, 0);
    }
  }

  /** Division by a positive modulus has a unique remainder. */
  lemma ModUnique(x: int, m: int, q: int, r: int)
    requires m > 0 && 0 <= r < m && x == q * m + r
    ensures x % m == r
  {
    var q', r' := x / m, x % m;
    assert (q - q') * m == r' - r;
    if q > q' {
      MulAtLeast(q - q', m);
    } else if q < q' {
      MulAtLeast(q' - q, m);
    }
  }

  lemma MulAtLeast(k: int, m: int)
    requires k >= 1 && m > 0
    ensures k * m >= m
  {
  }

  /** Two consumptions without a commit in between: the next commit finds the
      flag at -1 and moves to ErrorTimeout, which no later event undoes. */
  lemma MissedDeadline(s: Snapshot, later: seq<Event>)
    requires Armed(s)
    ensures var t := Run(s, [Tick10, Tick10, TransmissionComplete, MainLoop, MainLoop, MainLoop]);
      && t.state == ErrorTimeout && t.flag == -1
      && Run(t, later).state == ErrorTimeout && Run(t, later).flag == -1
  {
    var schedule := [Tick10, Tick10, TransmissionComplete, MainLoop, MainLoop, MainLoop];
    var t := Run(s, schedule);
    RunPreservesInv(s, schedule);
    ErrorStatesFrozen(t, later);
  }

  /** The flag is not confined to {-1, 0, 1}: ticks keep consuming while the main
      loop has not yet reached its commit. */
  lemma FlagFallsBelowMinusOne(s: Snapshot)
    requires Armed(s)
    ensures var t := Run(s, [Tick10, Tick10, Tick10]);
      t.flag == -2 && t.state == Running
  {
  }
}
