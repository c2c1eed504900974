# LPA-hardware firmware: control logic in Dafny

A model of the control logic in `firmware/firmware.cpp`. This firmware plays a
light program on a chain of TLC5941 LED drivers and shows its status on three
indicator LEDs. The model covers:

- **startup**: the SD card and `program.lpf` checks that pick the first system state;
- **the synchronisation flag `dataAvailableFlag`**, shared by two parties:
  - the 10-tick timer callback `UpdateLeds` consumes a frame and asks the driver to send it;
  - the main loop waits for the flag, fills a frame and then, atomically, either re-arms
    the flag or detects a missed deadline;
- **the 8-state status table** `UpdateStatusLeds`, run by the 500-tick callback;
- **the placeholder frame generator**, which lights one channel at a time;
- **the rule that error states are terminal**.

Files:

- `system_state.dfy` (module `SystemStates`): the eight values of `System_state`, and `uint8`.
- `status_leds.dfy` (module `StatusLeds`): the indicators, the three commands, and the
  state → commands table as a pure function, with lemmas about the table.
- `control_loop.dfy` (module `ControlLoop`): the shared state as a value (`Snapshot`) and
  one function per atomic event. The events are `Tick10` (UpdateLeds), `Tick500`
  (UpdateStatusLeds), `MainLoop` (one step of the main loop) and `TransmissionComplete`
  (the driver clears its update bit). An execution is any sequence of events (`Run`),
  because the timer interrupt can preempt the main loop between any two of its steps.
  The main loop carries a program counter: waiting at line 197, waiting at line 200, or
  frame filled and commit next. A busy-wait whose condition still holds is a step that
  changes nothing. `Inv` is the invariant of every reachable state, and the lemmas
  prove the properties over arbitrary executions.
- `firmware.dfy` (module `Firmware`): the globals as the fields of class `Controller`.
  The constructor is `main` up to the start of the timer. The callbacks and the main
  loop are methods that update the fields in place; the frame generator is a loop over
  the driver's buffer (`array<int>`). Each method is proved to have exactly the effect
  of its `ControlLoop` event, and to keep `Inv`.

Notes on what the code does:

- The deadline miss is detected by the main loop at its commit (line 219), not by the
  tick callback. The state becomes `ErrorTimeout` only at that commit.
- The wait at line 197 spins while the flag is positive. It passes on a negative flag
  as well as on 0.
- The flag is not confined to {-1, 0, 1}. Ticks keep decrementing it while the main loop
  has not yet reached its commit (`ControlLoop.FlagFallsBelowMinusOne`).
- The code never enters `Finished`, `ErrorWrongLpf` or `ErrorLpfUnavailable`. It only
  displays them.

## Model

| member | source | states |
|---|---|---|
| `Firmware.ResolveStartup` | firmware/firmware.cpp:162-187 | a failed SD init gives ErrorNoSdCard and the program file is never opened; with SD ok the file is opened, and a failed open gives ErrorNoLpf; both ok gives Running |
| `Firmware.Controller.constructor` | firmware/firmware.cpp:130-190 | after startup the flag is 1 (0 set once), the buffer is all zero with no update pending, the counter is 0, the indicators are off, the state is the startup outcome, and the invariant holds |
| `Firmware.Controller.UpdateLeds` | firmware/firmware.cpp:47-57 | the callback's in-place effect is exactly the Tick10 event (decrement only while Running; request an update unless the flag is negative) and keeps the invariant |
| `Firmware.Controller.UpdateStatusLeds` | firmware/firmware.cpp:59-103 | the switch's set/toggle commands leave the indicators equal to the table's pattern for the state, applied to the old indicators, for all 8 states; nothing else changes |
| `Firmware.Controller.TransmissionComplete` | firmware/firmware.cpp:200 | the driver clearing its update bit changes only that bit and keeps the invariant |
| `Firmware.Controller.GenerateFrame` | firmware/firmware.cpp:207-214 | the loop writes 4095 at the old ledCounter and 0 on every other channel, and ledCounter becomes (old+1) mod the channel count; the uint8 loop index needs fewer than 256 channels |
| `Firmware.Controller.MainLoopStep` | firmware/firmware.cpp:193-228 | one step of the main loop has exactly the effect of the MainLoop event (wait, wait, fill, atomic commit) and keeps the invariant |
| `Firmware.Controller.Execute` | firmware/firmware.cpp:190-229 | under any interleaving of callbacks, main-loop steps and completed transmissions, the state is Run of the events, the flag stays at most 1, the state either stays or goes Running to ErrorTimeout, and outside Running the flag and buffer never change |
| `ControlLoop.Boot` | firmware/firmware.cpp:130-187 | the state after startup (flag 1, zeroed buffer, no update pending, counter 0, indicators off); it carries no contract of its own: `ControlLoop.BootInv` and the constructor's ensures pin it |
| `ControlLoop.UpdateLeds` | firmware/firmware.cpp:47-57 | the Tick10 event; it carries no contract of its own: `ControlLoop.UpdateLedsEffect` and `ControlLoop.StepPreservesInv` pin it |
| `ControlLoop.UpdateStatusLeds` | firmware/firmware.cpp:59-103 | the Tick500 event, rendering `StatusLeds.PatternOf` of the state; it carries no contract of its own: the table lemmas and `ControlLoop.StepPreservesInv` pin it |
| `ControlLoop.MainLoopStep` | firmware/firmware.cpp:193-228 | one main-loop step; it carries no contract of its own: `ControlLoop.CommitEffect`, `ControlLoop.FillEffect`, `ControlLoop.FrameWrittenOnlyWhenIdle` and `ControlLoop.StepPreservesInv` pin it |
| `Firmware.Controller.SetIndicator` | firmware/firmware.cpp:63-100 | a `StatusLeds_Set` call drives one indicator to the given level and leaves the other two as they were |
| `Firmware.Controller.ToggleIndicator` | firmware/firmware.cpp:68-99 | a `StatusLeds_Toggle` call inverts one indicator and leaves the other two as they were |
| `StatusLeds.PatternOf` | firmware/firmware.cpp:59-103 | the table: the error indicator is lit or blinking exactly in the five error states, the activity indicator blinks exactly in Running and ErrorTimeout, the done indicator never blinks |
| `StatusLeds.PatternsDistinct` | firmware/firmware.cpp:59-103 | no two states share a pattern |
| `StatusLeds.SteadyStates` | firmware/firmware.cpp:59-103 | exactly Running, ErrorTimeout and ErrorLpfUnavailable use a toggle; the other five are steady |
| `StatusLeds.SteadyRenderIdempotent` | firmware/firmware.cpp:59-103 | for a steady pattern, applying the update twice gives the same indicators as applying it once |
| `StatusLeds.RenderPeriodTwo` | firmware/firmware.cpp:59-103 | for every state, the indicators repeat with period two, and a toggled indicator changes on every update |
| `ControlLoop.UpdateLedsEffect` | firmware/firmware.cpp:47-57 | the flag drops by exactly 1 when Running and is unchanged otherwise; from no pending update, an update is requested iff the resulting flag is at least 0; nothing else changes |
| `ControlLoop.CommitEffect` | firmware/firmware.cpp:218-227 | a negative flag gives ErrorTimeout with the flag unchanged; otherwise the flag is incremented and the state kept |
| `ControlLoop.FillEffect` | firmware/firmware.cpp:207-214 | after a fill exactly one channel holds 4095 (the one at the old ledCounter) and all others 0; ledCounter becomes (old+1) mod channels and stays in range |
| `ControlLoop.RequestOnlyWhenProducerIdle` | firmware/firmware.cpp:194-227 | in a reachable state, whenever the 10-tick callback calls for a transmission (its new flag is at least 0) the main loop is at its wait for the flag, never between filling and committing a frame |
| `ControlLoop.FrameWrittenOnlyWhenIdle` | firmware/firmware.cpp:200-214 | the buffer is written only after the wait for the driver, with no update pending |
| `ControlLoop.StepPreservesInv` | firmware/firmware.cpp:47-227 | every atomic event keeps the invariant (flag at most 1, at most 0 past the wait, no pending update between fill and commit, ErrorTimeout only with a negative flag, counter in range) |
| `ControlLoop.BootInv` | firmware/firmware.cpp:130-187 | the state right after startup, for each of the three startup outcomes, satisfies the invariant |
| `ControlLoop.RunPreservesInv` | firmware/firmware.cpp:40-227 | over any execution the invariant holds, so the flag never exceeds 1 |
| `ControlLoop.OnlyTimeoutLeavesRunning` | firmware/firmware.cpp:194-227 | over any execution the only change of state is Running to ErrorTimeout |
| `ControlLoop.ErrorStatesFrozen` | firmware/firmware.cpp:47-229 | once in a terminal state (Finished or an error state; in a reachable state, any state but Running), no execution changes the state, flag, frame, counter or main-loop position; only the indicators and the update bit change |
| `ControlLoop.NegativeFlagLatches` | firmware/firmware.cpp:45-227 | once negative the flag never rises again, and no transmission is requested while it is negative |
| `ControlLoop.OneCycle` | firmware/firmware.cpp:193-227 | one on-time cycle (consume, transmit, wait, fill, commit) returns to Running with flag 1 and shows the one-hot frame at the old counter |
| `ControlLoop.OnTimeCyclesKeepRunning` | firmware/firmware.cpp:193-227 | after n on-time cycles the system is still Running with flag 1, the counter has advanced by n mod the channel count, and the last frame lights the previous channel |
| `ControlLoop.MissedDeadline` | firmware/firmware.cpp:216-222 | from any armed state, the schedule Tick10, Tick10, TransmissionComplete and one full main-loop iteration drives the flag to -1 and the state to ErrorTimeout, and no later schedule undoes it |
| `ControlLoop.FlagFallsBelowMinusOne` | firmware/firmware.cpp:47-57 | three consumptions without a commit leave the flag at -2 while still Running |

## Left out

- `timer0_init` (lines 107-128) only sets AVR timer registers.
- The `MsTimer` scheduler is not part of this model. Its two registrations (lines
  155-158) become the events `Tick10` and `Tick500`, which may occur in any order
  and any number. The 10:500 period ratio and the rule that the fast callback goes
  first within one tick are therefore not modelled. Every property holds for all orders.
- The TLC5941 driver is not part of this model: `Tlc5941_Init`, the dot-correction
  setup, and the transmission itself. `Tlc5941_gsUpdateFlag` is a boolean; the firmware
  sets it and the `TransmissionComplete` event clears it. The forced upload at lines
  145-146 is taken as finished at startup.
- The SD library is not part of this model. `SD.begin()` and `SD.open("program.lpf")`
  become the boolean inputs of startup, and the file handle `lpf` is not kept.
- The physical indicator drive in `StatusLeds.h` is not part of this model. The
  indicators are three booleans; `Firmware.Controller.SetIndicator` and
  `Firmware.Controller.ToggleIndicator` model the effect of the `StatusLeds_Set` and
  `StatusLeds_Toggle` calls on them, and `StatusLeds_Init` is taken to switch all three off.
- `ATOMIC_BLOCK` and `volatile` are not modelled as such. Each callback and the commit at
  lines 218-227 is one indivisible event. Filling the frame (lines 207-214) is also one
  event. This is sound because no callback touches the buffer, and no transmission can
  be requested while the main loop is between fill and commit
  (`ControlLoop.RequestOnlyWhenProducerIdle`).
- `ControlLoop.Inv`: the flag is an unbounded integer, not `int8_t`. Nothing bounds the
  ticks that arrive before a late commit, so after 129 of them the real counter would
  wrap to 127. The model does not capture that wrap.
- The pending work in the source is not modelled: reading and verifying the program
  header (lines 179-182) and decoding frames from the program file (lines 202-203). The
  code never moves into `Finished`, `ErrorWrongLpf` or `ErrorLpfUnavailable`, so the
  model has no transitions into them; they appear only in the status table.
- `Firmware.Controller.constructor`: the channel count `Tlc5941_N * 16` comes from the
  driver's header, so it is a parameter here. It must lie between 16 and 255: the
  `uint8_t` loop index at line 207 could never reach 256.
