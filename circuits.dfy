/** The two physical circuit models, a resistor chain in series and a bank of
    resistors in parallel, both driven by one voltage source, and the linear
    systems A·x = b they build. */
module Circuits {
  import opened Wrappers
  import opened Numeric
  import opened Components

  datatype Topology = Series | Parallel

  /** A model holds the (possibly null) name it was given, a private copy of its
      resistor list and the source voltage. Values are immutable here, so the
      copy taken at construction cannot be affected by the caller. */
  datatype CircuitModel = CircuitModel(topology: Topology, name: Option<string>, resistors: seq<Resistor>, voltage: real)

  /** Both constructors reject a null or empty resistor list and otherwise keep
      what they were given. */
  function NewModel(topology: Topology, name: Option<string>, resistors: Option<seq<Resistor>>, voltage: real): (r: Result<CircuitModel>)
    ensures r.Ok? <==> resistors.Some? && resistors.value != []
    ensures r.Err? ==> r.error == EmptyInput
    ensures r.Ok? ==> r.value == CircuitModel(topology, name, resistors.value, voltage)
  {
    if resistors.None? || resistors.value == [] then Err(EmptyInput)
    else Ok(CircuitModel(topology, name, resistors.value, voltage))
  }

  /** `name()`: the given name, or the topology's default. */
  function ModelName(m: CircuitModel): (r: string)
    ensures m.name.Some? ==> r == m.name.value
    ensures m.name.None? && m.topology == Series ==> r == "serie"
    ensures m.name.None? && m.topology == Parallel ==> r == "paralelo"
  {
    match m.name
    case Some(n) => n
    case None => if m.topology == Series then "serie" else "paralelo"
  }

  /** The series matrix: a single entry, the total resistance. */
  function SeriesMatrix(rs: seq<Resistor>): (a: Matrix)
    ensures |a| == 1 && |a[0]| == 1 && a[0][0] == TotalResistance(Branch("", rs))
  {
    [[Sum(Values(rs))]]
  }

  /** The parallel matrix: R_i on the diagonal, zero elsewhere. */
  function ParallelMatrix(rs: seq<Resistor>): (a: Matrix)
    ensures |a| == |rs| && IsSquare(a)
    ensures forall i, j :: 0 <= i < |rs| && 0 <= j < |rs| ==> a[i][j] == if i == j then rs[i].resistanceOhm else 0.0
  {
    seq(|rs|, i requires 0 <= i < |rs| => seq(|rs|, j requires 0 <= j < |rs| => if i == j then rs[i].resistanceOhm else 0.0))
  }

  /** The parallel vector: the source voltage once per resistor. */
  function ParallelVector(n: nat, voltage: real): (b: Vector)
    ensures |b| == n && forall i :: 0 <= i < n ==> b[i] == voltage
  {
    seq(n, i => voltage)
  }

  /** `buildMatrix` of either model. */
  function BuildMatrix(m: CircuitModel): (a: Matrix)
    ensures IsSquare(a)
  {
    if m.topology == Series then SeriesMatrix(m.resistors) else ParallelMatrix(m.resistors)
  }

  /** `buildVector` of either model. */
  function BuildVector(m: CircuitModel): (b: Vector)
    ensures |b| == |BuildMatrix(m)|
  {
    if m.topology == Series then [m.voltage] else ParallelVector(|m.resistors|, m.voltage)
  }

  /** Valid series model: the one unknown is the loop current V/ΣR, and no
      other value solves the system. */
  lemma SeriesSolution(m: CircuitModel, x: Vector)
    requires m.topology == Series && m.resistors != [] && AllValid(m.resistors)
    requires |x| == 1
    ensures BuildMatrix(m)[0][0] > 0.0
    ensures MatVec(BuildMatrix(m), x) == BuildVector(m) <==> x[0] == m.voltage / TotalResistance(Branch("", m.resistors))
  {
    PositiveTotal(Branch("", m.resistors));
    var a := BuildMatrix(m);
    var total := a[0][0];
    assert DotPrefix(a[0], x, 1) == total * x[0];
    assert MatVec(a, x) == [total * x[0]];
    assert BuildVector(m) == [m.voltage];
    if x[0] == m.voltage / total {
      assert total * x[0] == m.voltage;
    }
    if total * x[0] == m.voltage {
      assert x[0] == m.voltage / total;
    }
  }

  /** Row i of a diagonal matrix picks out the i-th unknown. */
  lemma {:induction false} DiagonalRowDot(rs: seq<Resistor>, x: Vector, i: nat, k: nat)
    requires i < |rs| && k <= |rs| && |x| == |rs|
    ensures DotPrefix(ParallelMatrix(rs)[i], x, k) == if i < k then rs[i].resistanceOhm * x[i] else 0.0
  {
    if k > 0 {
      DiagonalRowDot(rs, x, i, k - 1);
    }
  }

  /** Entry i of A·x for the diagonal matrix is R_i · x_i. */
  lemma ParallelProduct(rs: seq<Resistor>, x: Vector)
    requires |x| == |rs|
    ensures |MatVec(ParallelMatrix(rs), x)| == |rs|
    ensures forall i :: 0 <= i < |rs| ==> MatVec(ParallelMatrix(rs), x)[i] == rs[i].resistanceOhm * x[i]
  {
    forall i | 0 <= i < |rs|
      ensures MatVec(ParallelMatrix(rs), x)[i] == rs[i].resistanceOhm * x[i]
    {
      DiagonalRowDot(rs, x, i, |rs|);
    }
  }

  /** Ohm's law for one branch: R·I = V exactly when I = V/R. */
  lemma BranchCurrent(r: real, current: real, voltage: real)
    requires r > 0.0
    ensures r * current == voltage <==> current == voltage / r
  {
    if current == voltage / r {
      assert r * current == voltage;
    }
  }

  /** Valid parallel model: each branch current is V/R_i, and nothing else
      solves the system. */
  lemma ParallelSolution(m: CircuitModel, x: Vector)
    requires m.topology == Parallel && AllValid(m.resistors)
    requires |x| == |m.resistors|
    ensures MatVec(BuildMatrix(m), x) == BuildVector(m) <==>
              forall i :: 0 <= i < |x| ==> x[i] == m.voltage / m.resistors[i].resistanceOhm
  {
    var rs := m.resistors;
    var ax, b := MatVec(ParallelMatrix(rs), x), ParallelVector(|rs|, m.voltage);
    ParallelProduct(rs, x);
    if ax == b {
      forall i | 0 <= i < |x| ensures x[i] == m.voltage / rs[i].resistanceOhm {
        assert ValidResistor(rs[i]) && ax[i] == b[i];
        BranchCurrent(rs[i].resistanceOhm, x[i], m.voltage);
      }
    } else {
      var i :| 0 <= i < |b| && ax[i] != b[i];
      assert ValidResistor(rs[i]);
      BranchCurrent(rs[i].resistanceOhm, x[i], m.voltage);
    }
  }

  /** `ParallelCircuitModel.buildMatrix`: nested loops fill a fresh n×n array. */
  method BuildParallelMatrix(rs: seq<Resistor>) returns (a: array2<real>)
    ensures fresh(a) && ArrayMatrix(a) == ParallelMatrix(rs)
  {
    var n := |rs|;
    a := new real[n, n];
    var i := 0;
    while i < n
      invariant 0 <= i <= n
      invariant forall p, q :: 0 <= p < i && 0 <= q < n ==> a[p, q] == if p == q then rs[p].resistanceOhm else 0.0
    {
      var j := 0;
      while j < n
        invariant 0 <= j <= n
        invariant forall p, q :: 0 <= p < i && 0 <= q < n ==> a[p, q] == if p == q then rs[p].resistanceOhm else 0.0
        invariant forall q :: 0 <= q < j ==> a[i, q] == if i == q then rs[i].resistanceOhm else 0.0
      {
        a[i, j] := if i == j then rs[i].resistanceOhm else 0.0;
        j := j + 1;
      }
      i := i + 1;
    }
    forall p | 0 <= p < n ensures ArrayMatrix(a)[p] == ParallelMatrix(rs)[p] {
      assert forall q :: 0 <= q < n ==> ArrayMatrix(a)[p][q] == ParallelMatrix(rs)[p][q];
    }
  }

  /** `ParallelCircuitModel.buildVector`: a loop fills a fresh array with V. */
  method BuildParallelVector(n: nat, voltage: real) returns (b: array<real>)
    ensures fresh(b) && b[..] == ParallelVector(n, voltage)
  {
    b := new real[n];
    var i := 0;
    while i < n
      invariant 0 <= i <= n
      invariant forall k :: 0 <= k < i ==> b[k] == voltage
    {
      b[i] := voltage;
      i := i + 1;
    }
  }
}
