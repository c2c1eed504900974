/** The firmware's globals and the routines that update them in place: startup
    in main, the two timer callbacks, and the body of the main loop. Each routine
    is proved to have the effect of the matching event of ControlLoop. */
module Firmware {
  import opened SystemStates
  import opened StatusLeds
  import ControlLoop

  /** Startup state resolution. `sdOk` is whether the SD card initialises and
      `lpfOk` whether program.lpf would open; `openAttempted` says whether the
      program file was opened at all. */
  method ResolveStartup(sdOk: bool, lpfOk: bool) returns (state: SystemState, openAttempted: bool)
    ensures !sdOk ==> state == ErrorNoSdCard && !openAttempted
    ensures sdOk ==> openAttempted
    ensures sdOk && !lpfOk ==> state == ErrorNoLpf
    ensures sdOk && lpfOk ==> state == Running
  {
    state := Initializing;
    openAttempted := false;
    if !sdOk {
      state := ErrorNoSdCard;
    }
    if state == Initializing {
      openAttempted := true;
      if !lpfOk {
        state := ErrorNoLpf;
      }
    }
    // reading and verifying the program header is not implemented
    if state == Initializing {
      state := Running;
    }
  }

  /** The firmware's global state: System_state, dataAvailableFlag, the driver's
      grayscale buffer and update bit, main's ledCounter, the three indicators,
      and where the main loop stands. */
  class Controller {
    /** Tlc5941_N * 16, the number of LED channels. */
    const channels: uint8
    /** The driver's grayscale buffer. */
    const gs: array<int>
    var state: SystemState
    var flag: int
    var gsUpdate: bool
    var ledCounter: uint8
    var leds: Indicators
    var pc: ControlLoop.Pc

    ghost function Snapshot(): ControlLoop.Snapshot
      reads this, gs
    {
      ControlLoop.Snapshot(state, flag, gsUpdate, ledCounter as int, channels as int, gs[..], leds, pc)
    }

    ghost predicate Valid()
      reads this, gs
    {
      gs.Length == channels as int && ControlLoop.Inv(Snapshot())
    }

    /** main up to the start of the timer: the driver's buffer is cleared and
        sent, the flag is armed once, the indicators are off, and the state is
        resolved from the SD card and program file. */
    constructor (tlcCount: nat, sdOk: bool, lpfOk: bool)
      requires 1 <= tlcCount && tlcCount * 16 <= 255
      ensures Valid() && fresh(gs)
      ensures Snapshot() == ControlLoop.Boot(tlcCount * 16, state)
      ensures !sdOk ==> state == ErrorNoSdCard
      ensures sdOk && !lpfOk ==> state == ErrorNoLpf
      ensures sdOk && lpfOk ==> state == Running
    {
      channels := (tlcCount * 16) as uint8;
      // all grayscale values off, uploaded, and the upload waited for
      gs := new int[tlcCount * 16](_ => 0);
      gsUpdate := false;
      // the flag starts at 0 and is set once for the first iteration
      flag := 0 + 1;
      leds := AllOff;
      ledCounter := 0;
      pc := ControlLoop.AwaitConsumption;
      var resolved, _ := ResolveStartup(sdOk, lpfOk);
      state := resolved;
      new;
      assert gs[..] == seq(tlcCount * 16, _ => 0);
      ControlLoop.BootInv(tlcCount * 16, state);
    }

    /** The 10-tick callback: release the flag while running, and ask the driver
        to send the buffer unless the flag has gone negative. */
    method UpdateLeds()
      requires Valid()
      modifies this
      ensures Valid()
      ensures Snapshot() == ControlLoop.UpdateLeds(old(Snapshot()))
    {
      if state == Running {
        flag := flag - 1;
      }
      if !(flag < 0) {
        gsUpdate := true;
      }
      ControlLoop.StepPreservesInv(old(Snapshot()), ControlLoop.Tick10);
    }

    method SetIndicator(id: Led, lit: bool)
      modifies this`leds
      ensures leds == old(leds).With(id, lit)
    {
      leds := leds.With(id, lit);
    }

    method ToggleIndicator(id: Led)
      modifies this`leds
      ensures leds == old(leds).With(id, !old(leds).Get(id))
    {
      leds := leds.With(id, !leds.Get(id));
    }

    /** The 500-tick callback: issue the three indicator commands of the state. */
    method UpdateStatusLeds()
      modifies this`leds
      ensures old(Valid()) ==> Valid()
      ensures Snapshot() == ControlLoop.UpdateStatusLeds(old(Snapshot()))
    {
      match state {
      case Initializing =>
        SetIndicator(LedOn, false);
        SetIndicator(LedErr, false);
        SetIndicator(LedFin, false);
      case Running =>
        ToggleIndicator(LedOn);
        SetIndicator(LedErr, false);
        SetIndicator(LedFin, false);
      case Finished =>
        SetIndicator(LedOn, false);
        SetIndicator(LedErr, false);
        SetIndicator(LedFin, true);
      case ErrorNoSdCard =>
        SetIndicator(LedOn, false);
        SetIndicator(LedErr, true);
        SetIndicator(LedFin, false);
      case ErrorNoLpf =>
        SetIndicator(LedOn, false);
        SetIndicator(LedErr, true);
        SetIndicator(LedFin, true);
      case ErrorWrongLpf =>
        SetIndicator(LedOn, true);
        SetIndicator(LedErr, true);
        SetIndicator(LedFin, false);
      case ErrorTimeout =>
        ToggleIndicator(LedOn);
        ToggleIndicator(LedErr);
        SetIndicator(LedFin, false);
      case ErrorLpfUnavailable =>
        SetIndicator(LedOn, false);
        ToggleIndicator(LedErr);
        SetIndicator(LedFin, false);
      }
      assert old(Valid()) ==> ControlLoop.Inv(ControlLoop.Step(old(Snapshot()), ControlLoop.Tick500));
    }

    /** The driver has finished sending the buffer. */
    method TransmissionComplete()
      requires Valid()
      modifies this`gsUpdate
      ensures Valid()
      ensures Snapshot() == old(Snapshot()).(gsUpdate := false)
    {
      gsUpdate := false;
      ControlLoop.StepPreservesInv(old(Snapshot()), ControlLoop.TransmissionComplete);
    }

    /** The placeholder frame: full intensity on the channel at ledCounter, every
        other channel off; then ledCounter moves on, wrapping at the channel count.
        The loop index is a uint8, so the channel count must stay below 256. */
    method GenerateFrame()
      requires gs.Length == channels as int && ledCounter < channels
      modifies gs, this`ledCounter
      ensures gs[..] == ControlLoop.OneHot(channels as int, old(ledCounter) as int)
      ensures ledCounter as int == (old(ledCounter) as int + 1) % channels as int
    {
      ghost var lit := ledCounter as int;
      var i: uint8 := 0;
      while i < channels
        modifies gs
        invariant i <= channels
        invariant forall j :: 0 <= j < i as int ==> gs[j] == if j == ledCounter as int then ControlLoop.GsMax else 0
      {
        if i == ledCounter {
          gs[i] := ControlLoop.GsMax;
        } else {
          gs[i] := 0;
        }
        i := i + 1;
      }
      assert gs[..] == ControlLoop.OneHot(channels as int, lit);
      ledCounter := ((ledCounter as int + 1) % channels as int) as uint8;
      assert gs[..] == ControlLoop.OneHot(channels as int, lit);
    }

    /** One step of the main loop: while running, wait for the frame to be
        consumed, wait for the driver, fill the next frame, then (atomically)
        either detect the missed deadline or re-arm the flag. */
    method MainLoopStep()
      requires Valid()
      modifies this, gs
      ensures Valid()
      ensures Snapshot() == ControlLoop.MainLoopStep(old(Snapshot()))
    {
      if state == Running {
        match pc {
        case AwaitConsumption =>
          if !(flag > 0) {
            pc := ControlLoop.AwaitTransmission;
          }
        case AwaitTransmission =>
          if !gsUpdate {
            GenerateFrame();
            pc := ControlLoop.FrameFilled;
          }
        case FrameFilled =>
          if flag < 0 {
            state := ErrorTimeout;
          } else {
            flag := flag + 1;
          }
          pc := ControlLoop.AwaitConsumption;
        }
      }
      ControlLoop.StepPreservesInv(old(Snapshot()), ControlLoop.MainLoop);
    }

    /** The firmware after startup, under one interleaving of timer callbacks,
        main-loop steps and completed transmissions. The flag never exceeds 1,
        and the state either stays as it was or goes from Running to ErrorTimeout. */
    method Execute(schedule: seq<ControlLoop.Event>)
      requires Valid()
      modifies this, gs
      ensures Valid()
      ensures Snapshot() == ControlLoop.Run(old(Snapshot()), schedule)
      ensures flag <= 1
      ensures state == old(state) || (old(state) == Running && state == ErrorTimeout)
      ensures old(state) != Running ==> flag == old(flag) && gs[..] == old(gs[..])
    {
      ghost var start := Snapshot();
      var k := 0;
      while k < |schedule|
        invariant 0 <= k <= |schedule|
        invariant Valid()
        invariant Snapshot() == ControlLoop.Run(start, schedule[..k])
        decreases |schedule| - k
      {
        ghost var before := Snapshot();
        match schedule[k] {
          case Tick10 => UpdateLeds();
          case Tick500 => UpdateStatusLeds();
          case MainLoop => MainLoopStep();
          case TransmissionComplete => TransmissionComplete();
        }
        assert Snapshot() == ControlLoop.Step(before, schedule[k]);
        ControlLoop.RunAppend(start, schedule[..k], [schedule[k]]);
        assert schedule[..k + 1] == schedule[..k] + [schedule[k]];
        k := k + 1;
      }
      assert schedule[..k] == schedule;
      ControlLoop.OnlyTimeoutLeavesRunning(start, schedule);
      if start.state != Running {
        ControlLoop.ErrorStatesFrozen(start, schedule);
      }
    }
  }
}
