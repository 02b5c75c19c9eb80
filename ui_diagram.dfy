/** The circuit diagram's labels: the unit a current and a resistance are
    shown in, and what the diagram draws from when figures are missing. A
    JavaScript number is `Option<real>` here, None standing for NaN and the
    infinities; the two-decimal text of a figure is left to the renderer. */
module CircuitDiagram {
  import opened Wrappers
  import opened Numeric

  /** A current label: the dash for a missing figure, otherwise the
      magnitude in the unit that keeps it between 1 and 1000 where it can. */
  datatype CurrentLabel = Dash | Amperes(magnitude: real) | MilliAmperes(scaled: real) | MicroAmperes(scaled: real)

  const MILLI: real := 1.0 / 1000.0

  /** `formatCurrent`. */
  function FormatCurrent(value: Option<real>): (r: CurrentLabel)
    ensures r.Dash? <==> value.None?
    ensures r.Amperes? ==> r.magnitude >= 1.0
    ensures r.MilliAmperes? ==> 1.0 <= r.scaled < 1000.0
    ensures r.MicroAmperes? ==> 0.0 <= r.scaled < 1000.0
    ensures value.Some? && Abs(value.value) >= 1.0 ==> r.Amperes?
    ensures value.Some? && MILLI <= Abs(value.value) < 1.0 ==> r.MilliAmperes?
    ensures value.Some? && Abs(value.value) < MILLI ==> r.MicroAmperes?
  {
    match value
    case None => Dash
    case Some(v) =>
      var magnitude := Abs(v);
      if magnitude >= 1.0 then Amperes(magnitude)
      else if magnitude >= MILLI then MilliAmperes(magnitude * 1000.0)
      else MicroAmperes(magnitude * 1000000.0)
  }

  /** The amperes a label stands for. */
  function LabelAmperes(l: CurrentLabel): real
    requires !l.Dash?
  {
    match l
    case Amperes(m) => m
    case MilliAmperes(s) => s / 1000.0
    case MicroAmperes(s) => s / 1000000.0
  }

  /** A label shows the current's magnitude exactly, whatever its unit. */
  lemma LabelIsMagnitude(v: real)
    ensures LabelAmperes(FormatCurrent(Some(v))) == Abs(v)
  {
  }

  /** The direction of a current does not change its label. */
  lemma SignDropped(v: real)
    ensures FormatCurrent(Some(-v)) == FormatCurrent(Some(v))
  {
    assert Abs(-v) == Abs(v);
  }

  /** A resistance label: kilo-ohms from 1000 Ω up, ohms below. */
  datatype ResistanceLabel = KiloOhms(scaled: real) | Ohms(value: real)

  /** `formatResistance`. */
  function FormatResistance(value: real): (r: ResistanceLabel)
    ensures r.KiloOhms? <==> value >= 1000.0
    ensures r.KiloOhms? ==> r.scaled >= 1.0 && r.scaled * 1000.0 == value
    ensures r.Ohms? ==> r.value == value
  {
    if value >= 1000.0 then KiloOhms(value / 1000.0) else Ohms(value)
  }

  /** The currents the diagram draws from: nothing is drawn without
      resistances; missing currents become a single NaN. */
  function DiagramCurrents(resistances: Option<seq<real>>, currents: Option<seq<Option<real>>>): (r: Option<seq<Option<real>>>)
    ensures r.None? <==> resistances.None? || resistances.value == []
    ensures r.Some? ==> r.value != []
    ensures r.Some? && currents.Some? && currents.value != [] ==> r.value == currents.value
  {
    if resistances.None? || resistances.value == [] then None
    else if currents.Some? && currents.value != [] then Some(currents.value)
    else Some([None])
  }

  /** A series circuit drawn without currents labels its current with the
      dash. */
  lemma SeriesWithoutCurrents(resistances: seq<real>, currents: Option<seq<Option<real>>>)
    requires resistances != []
    requires currents.None? || currents.value == []
    ensures DiagramCurrents(Some(resistances), currents) == Some([None])
    ensures FormatCurrent(DiagramCurrents(Some(resistances), currents).value[0]) == Dash
  {
  }
}
