/** The three status indicators and the table that maps each system state to the
    command issued to each indicator on every slow (500-tick) timer callback. */
module StatusLeds {
  import opened SystemStates

  /** The three indicators: activity ("On"), error ("Err") and done ("Fin"). */
  datatype Led = LedOn | LedErr | LedFin

  /** A command the firmware issues to one indicator. */
  datatype Command = TurnOn | TurnOff | Toggle

  /** One command per indicator: what one call of UpdateStatusLeds issues. */
  datatype Pattern = Pattern(on: Command, err: Command, fin: Command)

  /** Whether each indicator is lit. */
  datatype Indicators = Indicators(on: bool, err: bool, fin: bool)
  {
    function Get(id: Led): bool {
      match id
      case LedOn => on
      case LedErr => err
      case LedFin => fin
    }

    /** The indicators with `id` driven to `lit` and the other two untouched. */
    function With(id: Led, lit: bool): (r: Indicators)
      ensures r.Get(id) == lit
      ensures forall other :: other != id ==> r.Get(other) == Get(other)
    {
      match id
      case LedOn => this.(on := lit)
      case LedErr => this.(err := lit)
      case LedFin => this.(fin := lit)
    }
  }

  const AllOff := Indicators(false, false, false)

  /** The effect of one command on one indicator. */
  function Apply(c: Command, lit: bool): bool {
    match c
    case TurnOn => true
    case TurnOff => false
    case Toggle => !lit
  }

  function CommandFor(p: Pattern, id: Led): Command {
    match id
    case LedOn => p.on
    case LedErr => p.err
    case LedFin => p.fin
  }

  /** The indicators after the three commands of `p` have been issued. */
  function Render(p: Pattern, leds: Indicators): Indicators {
    Indicators(Apply(p.on, leds.on), Apply(p.err, leds.err), Apply(p.fin, leds.fin))
  }

  /** A pattern that holds every indicator steady (no blinking). */
  predicate Steady(p: Pattern) {
    p.on != Toggle && p.err != Toggle && p.fin != Toggle
  }

  /** The status table: the three commands issued for each of the eight states.
      The error indicator is lit or blinking exactly in the error states, the
      activity indicator blinks exactly while running or after a timeout, and
      the done indicator never blinks. */
  function PatternOf(s: SystemState): (p: Pattern)
    ensures p.err != TurnOff <==> s.IsError()
    ensures p.on == Toggle <==> s == Running || s == ErrorTimeout
    ensures p.fin != Toggle
  {
    match s
    case Initializing        => Pattern(TurnOff, TurnOff, TurnOff)
    case Running             => Pattern(Toggle,  TurnOff, TurnOff)
    case Finished            => Pattern(TurnOff, TurnOff, TurnOn)
    case ErrorNoSdCard       => Pattern(TurnOff, TurnOn,  TurnOff)
    case ErrorNoLpf          => Pattern(TurnOff, TurnOn,  TurnOn)
    case ErrorWrongLpf       => Pattern(TurnOn,  TurnOn,  TurnOff)
    case ErrorTimeout        => Pattern(Toggle,  Toggle,  TurnOff)
    case ErrorLpfUnavailable => Pattern(TurnOff, Toggle,  TurnOff)
  }

  /** Every state has its own pattern, so a technician can tell all eight apart. */
  lemma PatternsDistinct(s: SystemState, t: SystemState)
    requires PatternOf(s) == PatternOf(t)
    ensures s == t
  {
  }

  /** Exactly the three states Running, ErrorTimeout and ErrorLpfUnavailable blink. */
  lemma SteadyStates(s: SystemState)
    ensures Steady(PatternOf(s)) <==> !(s == Running || s == ErrorTimeout || s == ErrorLpfUnavailable)
  {
  }

  /** For the steady states, rendering twice is the same as rendering once. */
  lemma SteadyRenderIdempotent(p: Pattern, leds: Indicators)
    requires Steady(p)
    ensures Render(p, Render(p, leds)) == Render(p, leds)
  {
  }

  /** For every state, two renderings bring the indicators back to what one
      rendering gave, and a blinking indicator changes on every rendering. */
  lemma RenderPeriodTwo(s: SystemState, leds: Indicators, id: Led)
    ensures Render(PatternOf(s), Render(PatternOf(s), Render(PatternOf(s), leds))) == Render(PatternOf(s), leds)
    ensures CommandFor(PatternOf(s), id) == Toggle ==>
              Render(PatternOf(s), leds).Get(id) != leds.Get(id)
  {
  }
}
