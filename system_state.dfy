/** The lifecycle of the LED program player: the eight values the firmware keeps
    in its global System_state, and the fixed-width integer it counts LEDs with. */
module SystemStates {

  /** An unsigned 8-bit integer (the firmware's uint8_t). */
  newtype uint8 = x: int | 0 <= x < 256

  /** System_state. The firmware encodes these as the numbers 0 to 7, in this order. */
  datatype SystemState =
    | Initializing
    | Running
    | Finished
    | ErrorNoSdCard
    | ErrorNoLpf
    | ErrorWrongLpf
    | ErrorTimeout
    | ErrorLpfUnavailable
  {
    /** The five fatal conditions the indicators report as errors. */
    predicate IsError() {
      ErrorNoSdCard? || ErrorNoLpf? || ErrorWrongLpf? || ErrorTimeout? || ErrorLpfUnavailable?
    }

    /** States that no code path ever leaves once startup is over. */
    predicate IsTerminal() {
      Finished? || IsError()
    }
  }
}
