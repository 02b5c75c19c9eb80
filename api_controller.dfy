/** The request checks of the HTTP controller: dimension validation of a custom
    system, default names, and the construction of a physical model from a
    list of resistances and a topology name. */
module ApiController {
  import opened Wrappers
  import opened Text
  import opened Numeric
  import opened Components
  import opened Circuits
  import opened DomainTypes
  import CM = CircuitManager

  /** The controller's own `validateDimensions`: the same checks as the circuit
      manager's, except that a null row is rejected like a row of the wrong
      length instead of being dereferenced. */
  function ValidateDimensions(a: Option<CM.RawMatrix>, b: Option<Vector>): (r: Result<Matrix>)
    ensures r.Ok? <==> a.Some? && b.Some? && |a.value| > 0 && |a.value| == |b.value| && CM.RowsSquare(a.value)
    ensures r.Ok? ==> IsSquare(r.value) && |r.value| == |b.value| && forall i :: 0 <= i < |r.value| ==> r.value[i] == a.value[i].value
    ensures (a.None? || b.None?) ==> r == Err(Missing)
    ensures a.Some? && b.Some? && (|a.value| == 0 || |a.value| != |b.value|) ==> r == Err(DimensionMismatch)
    ensures a.Some? && b.Some? && |a.value| > 0 && |a.value| == |b.value| && !CM.RowsSquare(a.value) ==> r == Err(NotSquare)
  {
    if a.None? || b.None? then Err(Missing)
    else if |a.value| == 0 || |a.value| != |b.value| then Err(DimensionMismatch)
    else if CM.FirstBadRow(a.value, 0) >= 0 then Err(NotSquare)
    else Ok(CM.Rows(a.value))
  }

  /** The two validations accept the same inputs with the same result; they
      differ only in how a null row is reported. So a request that passed the
      controller's check never fails the circuit manager's. */
  lemma ValidationsAgree(a: Option<CM.RawMatrix>, b: Option<Vector>)
    ensures ValidateDimensions(a, b).Ok? <==> CM.ValidateDimensions(a, b).Ok?
    ensures ValidateDimensions(a, b).Ok? ==> ValidateDimensions(a, b) == CM.ValidateDimensions(a, b)
    ensures ValidateDimensions(a, b).Err? && CM.ValidateDimensions(a, b).error != NullPointer ==>
              ValidateDimensions(a, b) == CM.ValidateDimensions(a, b)
  {
  }

  /** A request name if it is present and not blank, else the fallback. */
  function NameOr(name: Option<string>, fallback: string): (r: string)
    ensures (name.None? || IsBlank(name.value)) ==> r == fallback
    ensures name.Some? && !IsBlank(name.value) ==> r == name.value
  {
    if name.Some? && !IsBlank(name.value) then name.value else fallback
  }

  datatype SolveRequest = SolveRequest(sched: Option<string>, a: Option<CM.RawMatrix>, b: Option<Vector>, name: Option<string>)

  /** `solveCustom` up to the batch run: the payload, then the scheduler, then
      the dimensions are checked, and the system is named "custom" when the
      request has no usable name. */
  function SolveCustom(request: Option<SolveRequest>): (r: Result<(SchedulerType, CM.CircuitSpec)>)
    ensures request.None? ==> r == Err(Missing)
    ensures request.Some? && SchedulerFrom(request.value.sched).Err? ==> r == Err(SchedulerFrom(request.value.sched).error)
    ensures request.Some? && SchedulerFrom(request.value.sched).Ok? ==>
              (r.Ok? <==> ValidateDimensions(request.value.a, request.value.b).Ok?)
    ensures r.Ok? ==> var q := request.value;
              r.value.0 == SchedulerFrom(q.sched).value
              && r.value.1 == CM.CircuitSpec(CM.Rows(q.a.value), q.b.value, NameOr(q.name, "custom"))
  {
    match request
    case None => Err(Missing)
    case Some(q) =>
      match SchedulerFrom(q.sched)
      case Err(e) => Err(e)
      case Ok(t) =>
        match ValidateDimensions(q.a, q.b)
        case Err(e) => Err(e)
        case Ok(_) =>
          ValidationsAgree(q.a, q.b);
          match CM.Custom(NameOr(q.name, "custom"), q.a, q.b)
          case Err(e) => Err(e)
          case Ok(spec) => Ok((t, spec))
  }

  datatype PhysicalSolveRequest = PhysicalSolveRequest(
    sched: Option<string>, topology: Option<string>, voltage: real,
    resistances: Option<seq<real>>, name: Option<string>, scenario: Option<string>)

  /** The resistors R1…Rn, in input order, carrying the given values. */
  function NamedResistors(values: seq<real>): (rs: seq<Resistor>)
    ensures |rs| == |values|
    ensures forall i :: 0 <= i < |values| ==> rs[i] == Resistor("R" + NatToString(i + 1), values[i])
  {
    seq(|values|, i requires 0 <= i < |values| => Resistor("R" + NatToString(i + 1), values[i]))
  }

  predicate AllPositive(values: seq<real>) {
    forall i :: 0 <= i < |values| ==> values[i] > 0.0
  }

  /** The topology text after defaulting and normalization. */
  function TopologyName(topology: Option<string>): string {
    match topology
    case None => "serie"
    case Some(t) => ToLower(Trim(t))
  }

  /** `buildPhysicalModel`: resistances must be present, non-empty and each
      positive; the normalized topology selects the model; the model is named
      after the request or, failing that, after the topology. */
  function BuildPhysicalModel(q: PhysicalSolveRequest): (r: Result<CircuitModel>)
    ensures r.Ok? <==> q.resistances.Some? && q.resistances.value != [] && AllPositive(q.resistances.value)
                       && TopologyName(q.topology) in {"serie", "series", "paralelo", "parallel"}
    ensures (q.resistances.None? || q.resistances.value == []) ==> r == Err(EmptyInput)
    ensures q.resistances.Some? && q.resistances.value != [] && !AllPositive(q.resistances.value) ==> r == Err(NonPositive)
    ensures (q.resistances.Some? && q.resistances.value != [] && AllPositive(q.resistances.value)
             && TopologyName(q.topology) !in {"serie", "series", "paralelo", "parallel"}) ==> r == Err(UnknownName)
    ensures r.Ok? ==> r.value.resistors == NamedResistors(q.resistances.value)
                      && AllValid(r.value.resistors)
                      && r.value.voltage == q.voltage
                      && r.value.name == Some(NameOr(q.name, TopologyName(q.topology)))
                      && (r.value.topology == Series <==> TopologyName(q.topology) in {"serie", "series"})
  {
    if q.resistances.None? || q.resistances.value == [] then Err(EmptyInput)
    else if !AllPositive(q.resistances.value) then Err(NonPositive)
    else
      var rs := NamedResistors(q.resistances.value);
      var topology := TopologyName(q.topology);
      var baseName := NameOr(q.name, topology);
      if topology == "serie" || topology == "series" then NewModel(Series, Some(baseName), Some(rs), q.voltage)
      else if topology == "paralelo" || topology == "parallel" then NewModel(Parallel, Some(baseName), Some(rs), q.voltage)
      else Err(UnknownName)
  }

  /** `solvePhysical` up to the batch run: the scheduler is checked first, then
      the model is built, and the system is named after the request (or the
      model) with a timestamp suffix. */
  function SolvePhysical(request: Option<PhysicalSolveRequest>, millis: nat): (r: Result<(SchedulerType, CM.CircuitSpec)>)
    ensures request.None? ==> r == Err(Missing)
    ensures request.Some? && SchedulerFrom(request.value.sched).Err? ==> r == Err(SchedulerFrom(request.value.sched).error)
    ensures request.Some? && SchedulerFrom(request.value.sched).Ok? ==>
              (r.Ok? <==> BuildPhysicalModel(request.value).Ok?)
    ensures r.Ok? ==> var q := request.value; var model := BuildPhysicalModel(q).value;
              r.value.1 == CM.CustomFromModel(NameOr(q.name, ModelName(model)) + "-" + NatToString(millis), model)
  {
    match request
    case None => Err(Missing)
    case Some(q) =>
      match SchedulerFrom(q.sched)
      case Err(e) => Err(e)
      case Ok(t) =>
        match BuildPhysicalModel(q)
        case Err(e) => Err(e)
        case Ok(model) =>
          var baseName := NameOr(q.name, ModelName(model));
          Ok((t, CM.CustomFromModel(baseName + "-" + NatToString(millis), model)))
  }

  /** The model always carries a name, so the system is named after the request
      when it has a usable name and after the normalized topology otherwise. */
  lemma PhysicalSpecName(q: PhysicalSolveRequest, millis: nat)
    requires SolvePhysical(Some(q), millis).Ok?
    ensures SolvePhysical(Some(q), millis).value.1.name == NameOr(q.name, TopologyName(q.topology)) + "-" + NatToString(millis)
  {
    var model := BuildPhysicalModel(q).value;
    assert ModelName(model) == NameOr(q.name, TopologyName(q.topology));
  }

  /** A series request gives the 1×1 system [ΣR]·x = [V], a parallel request
      the diagonal system with V on every row. */
  lemma PhysicalSpecSystem(q: PhysicalSolveRequest, millis: nat)
    requires SolvePhysical(Some(q), millis).Ok?
    ensures var spec := SolvePhysical(Some(q), millis).value.1;
            var rs := NamedResistors(q.resistances.value);
            if TopologyName(q.topology) in {"serie", "series"} then
              spec.a == [[Sum(q.resistances.value)]] && spec.b == [q.voltage]
            else
              spec.a == ParallelMatrix(rs) && spec.b == ParallelVector(|rs|, q.voltage)
  {
    var rs := NamedResistors(q.resistances.value);
    assert Values(rs) == q.resistances.value;
  }
}
