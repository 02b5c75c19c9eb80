/** The singleton that turns a scenario name, a custom matrix or a physical
    model into a circuit specification (A, b and a name). The random entries of
    a generated scenario come from a given stream of draws; the timestamp
    suffix is a given number of milliseconds. */
module CircuitManager {
  import opened Wrappers
  import opened Text
  import opened Numeric
  import opened Config
  import opened Circuits
  import opened ArrayOps

  /** A matrix as it arrives from JSON: the matrix itself, and each row, may be null. */
  type RawMatrix = seq<Option<seq<real>>>

  datatype CircuitSpec = CircuitSpec(a: Matrix, b: Vector, name: string)

  /** All rows present and of length n. */
  predicate RowsSquare(a: RawMatrix) {
    forall i :: 0 <= i < |a| ==> a[i].Some? && |a[i].value| == |a|
  }

  /** The rows of a matrix whose rows are all present. */
  function Rows(a: RawMatrix): (m: Matrix)
    requires forall i :: 0 <= i < |a| ==> a[i].Some?
    ensures |m| == |a| && forall i :: 0 <= i < |a| ==> m[i] == a[i].value
  {
    seq(|a|, i requires 0 <= i < |a| => a[i].value)
  }

  /** Index of the first row that is null or of the wrong length, if any. */
  function FirstBadRow(a: RawMatrix, from: nat): (k: int)
    requires from <= |a|
    ensures k == -1 || from <= k < |a|
    ensures k == -1 <==> forall i :: from <= i < |a| ==> a[i].Some? && |a[i].value| == |a|
    ensures k >= 0 ==> (a[k].None? || |a[k].value| != |a|)
                       && forall i :: from <= i < k ==> a[i].Some? && |a[i].value| == |a|
    decreases |a| - from
  {
    if from == |a| then -1
    else if a[from].None? || |a[from].value| != |a| then from
    else FirstBadRow(a, from + 1)
  }

  /** `CircuitManager.validateDimensions`: null arguments, then an empty or
      mismatched pair, then the rows in order. A null row is dereferenced, which
      raises a NullPointerException; a short or long row is rejected. */
  function ValidateDimensions(a: Option<RawMatrix>, b: Option<Vector>): (r: Result<Matrix>)
    ensures r.Ok? <==> a.Some? && b.Some? && |a.value| > 0 && |a.value| == |b.value| && RowsSquare(a.value)
    ensures r.Ok? ==> IsSquare(r.value) && |r.value| == |b.value| && forall i :: 0 <= i < |r.value| ==> r.value[i] == a.value[i].value
    ensures (a.None? || b.None?) ==> r == Err(Missing)
    ensures a.Some? && b.Some? && (|a.value| == 0 || |a.value| != |b.value|) ==> r == Err(DimensionMismatch)
    ensures a.Some? && b.Some? && |a.value| > 0 && |a.value| == |b.value| && !RowsSquare(a.value) ==>
              var k := FirstBadRow(a.value, 0); k >= 0 && r == Err(if a.value[k].None? then NullPointer else NotSquare)
  {
    if a.None? || b.None? then Err(Missing)
    else if |a.value| == 0 || |a.value| != |b.value| then Err(DimensionMismatch)
    else
      var k := FirstBadRow(a.value, 0);
      if k >= 0 then Err(if a.value[k].None? then NullPointer else NotSquare)
      else Ok(Rows(a.value))
  }

  /** `custom(name, a, b)`: a validated system, unchanged, under the given name. */
  function Custom(name: string, a: Option<RawMatrix>, b: Option<Vector>): (r: Result<CircuitSpec>)
    ensures r.Ok? <==> ValidateDimensions(a, b).Ok?
    ensures r.Err? ==> r.error == ValidateDimensions(a, b).error
    ensures r.Ok? ==> r.value.name == name && r.value.b == b.value && r.value.a == Rows(a.value)
  {
    match ValidateDimensions(a, b)
    case Err(e) => Err(e)
    case Ok(m) => Ok(CircuitSpec(m, b.value, name))
  }

  /** `custom(name, model)`: the model's system, with no validation. */
  function CustomFromModel(name: string, model: CircuitModel): (s: CircuitSpec)
    ensures s.name == name && s.a == BuildMatrix(model) && s.b == BuildVector(model)
    ensures IsSquare(s.a) && |s.a| == |s.b|
  {
    CircuitSpec(BuildMatrix(model), BuildVector(model), name)
  }

  /** `custom(model)`: the model's own name with a timestamp suffix. */
  function CustomForModel(model: CircuitModel, millis: nat): (s: CircuitSpec)
    ensures s == CustomFromModel(ModelName(model) + "-" + NatToString(millis), model)
  {
    CustomFromModel(ModelName(model) + "-" + NatToString(millis), model)
  }

  /** Σ_{k<K} M[k][i]·M[k][j]: entry (i, j) of MᵀM over the first K rows. */
  function GramSum(m: Matrix, i: nat, j: nat, k: nat): real
    requires IsSquare(m) && i < |m| && j < |m| && k <= |m|
  {
    if k == 0 then 0.0 else GramSum(m, i, j, k - 1) + m[k - 1][i] * m[k - 1][j]
  }

  /** The well-conditioned matrix MᵀM + ½·I built from the draws M. */
  function WellConditioned(m: Matrix): (a: Matrix)
    requires IsSquare(m)
    ensures |a| == |m| && IsSquare(a)
  {
    seq(|m|, i requires 0 <= i < |m| => seq(|m|, j requires 0 <= j < |m| =>
      GramSum(m, i, j, |m|) + (if i == j then 0.5 else 0.0)))
  }

  lemma {:induction false} GramSumSymmetric(m: Matrix, i: nat, j: nat, k: nat)
    requires IsSquare(m) && i < |m| && j < |m| && k <= |m|
    ensures GramSum(m, i, j, k) == GramSum(m, j, i, k)
  {
    if k > 0 {
      GramSumSymmetric(m, i, j, k - 1);
    }
  }

  lemma {:induction false} GramSumDiagonal(m: Matrix, i: nat, k: nat)
    requires IsSquare(m) && i < |m| && k <= |m|
    ensures GramSum(m, i, i, k) >= 0.0
  {
    if k > 0 {
      GramSumDiagonal(m, i, k - 1);
      var v := m[k - 1][i];
      assert v * v >= 0.0;
    }
  }

  /** The generated matrix is symmetric and its diagonal is at least ½. */
  lemma WellConditionedShape(m: Matrix)
    requires IsSquare(m)
    ensures forall i, j :: 0 <= i < |m| && 0 <= j < |m| ==> WellConditioned(m)[i][j] == WellConditioned(m)[j][i]
    ensures forall i :: 0 <= i < |m| ==> WellConditioned(m)[i][i] >= 0.5
  {
    forall i, j | 0 <= i < |m| && 0 <= j < |m|
      ensures WellConditioned(m)[i][j] == WellConditioned(m)[j][i]
    {
      GramSumSymmetric(m, i, j, |m|);
    }
    forall i | 0 <= i < |m| ensures WellConditioned(m)[i][i] >= 0.5 {
      GramSumDiagonal(m, i, |m|);
    }
  }

  /** The n×n draws matrix: entry (i, j) is draw number i·n + j, in the order
      the nested loops request them. */
  function DrawnMatrix(n: nat, draw: nat -> real): (m: Matrix)
    ensures |m| == n && IsSquare(m)
  {
    seq(n, i requires 0 <= i < n => seq(n, j requires 0 <= j < n => draw(i * n + j)))
  }

  /** The right-hand side draws, taken after the n·n matrix draws. */
  function DrawnVector(n: nat, draw: nat -> real): (b: Vector)
    ensures |b| == n
  {
    seq(n, (i: int) requires 0 <= i < n => draw(n * n + i))
  }

  /** The innermost loop of `generateWellConditionedMatrix`: the running sum
      over k of M[k][i]·M[k][j]. */
  method GramEntry(m: array2<real>, i: nat, j: nat) returns (sum: real)
    requires m.Length0 == m.Length1 && i < m.Length0 && j < m.Length0
    ensures sum == GramSum(ArrayMatrix(m), i, j, m.Length0)
  {
    ghost var mm := ArrayMatrix(m);
    sum := 0.0;
    var k := 0;
    while k < m.Length0
      invariant 0 <= k <= m.Length0
      invariant sum == GramSum(mm, i, j, k)
    {
      assert mm[k][i] == m[k, i] && mm[k][j] == m[k, j];
      sum := sum + m[k, i] * m[k, j];
      k := k + 1;
    }
  }

  /** `generateWellConditionedMatrix`' second phase: a triple loop with a running
      sum writes MᵀM + ½·I into a fresh array. */
  method GenerateWellConditionedMatrix(m: array2<real>) returns (a: array2<real>)
    requires m.Length0 == m.Length1
    ensures fresh(a) && ArrayMatrix(a) == WellConditioned(ArrayMatrix(m))
  {
    var n := m.Length0;
    ghost var mm := ArrayMatrix(m);
    a := new real[n, n];
    var i := 0;
    while i < n
      invariant 0 <= i <= n
      invariant forall p, q :: 0 <= p < i && 0 <= q < n ==> a[p, q] == WellConditioned(mm)[p][q]
    {
      var j := 0;
      while j < n
        invariant 0 <= j <= n
        invariant forall p, q :: 0 <= p < i && 0 <= q < n ==> a[p, q] == WellConditioned(mm)[p][q]
        invariant forall q :: 0 <= q < j ==> a[i, q] == WellConditioned(mm)[i][q]
      {
        var sum := GramEntry(m, i, j);
        if i == j {
          sum := sum + 0.5;
        }
        a[i, j] := sum;
        j := j + 1;
      }
      i := i + 1;
    }
    forall p | 0 <= p < n ensures ArrayMatrix(a)[p] == WellConditioned(mm)[p] {
      assert forall q :: 0 <= q < n ==> ArrayMatrix(a)[p][q] == WellConditioned(mm)[p][q];
    }
  }

  /** `generateScenario(name)`: names without a positive size are rejected;
      otherwise the system is n×n with n the scenario size, built from the
      draws, and named after the scenario and the timestamp. */
  method GenerateScenario(name: Option<string>, draw: nat -> real, millis: nat) returns (r: Result<CircuitSpec>)
    ensures r.Ok? <==> ScenarioSize(name) > 0
    ensures r.Err? ==> r.error == UnknownName
    ensures r.Ok? ==> var n := ScenarioSize(name);
                      |r.value.a| == n && IsSquare(r.value.a) && |r.value.b| == n
                      && r.value.a == WellConditioned(DrawnMatrix(n, draw))
                      && r.value.b == DrawnVector(n, draw)
                      && r.value.name == name.value + "-" + NatToString(millis)
  {
    var size := ScenarioSize(name);
    if size <= 0 {
      return Err(UnknownName);
    }
    var n: nat := size;
    var m := FillDrawnMatrix(n, draw);
    var a := GenerateWellConditionedMatrix(m);
    var b := FillDrawnVector(n, draw);
    var am := MatrixOf(a);
    assert am == WellConditioned(DrawnMatrix(n, draw));
    assert IsSquare(am) && |am| == n;
    r := Ok(CircuitSpec(am, b[..], name.value + "-" + NatToString(millis)));
  }

  /** The first phase of `generateWellConditionedMatrix`: nested loops fill a
      fresh n×n array with the draws in row-major order. */
  method FillDrawnMatrix(n: nat, draw: nat -> real) returns (m: array2<real>)
    ensures fresh(m) && m.Length0 == n && m.Length1 == n && ArrayMatrix(m) == DrawnMatrix(n, draw)
  {
    m := new real[n, n];
    var i := 0;
    while i < n
      invariant 0 <= i <= n
      invariant forall p, q :: 0 <= p < i && 0 <= q < n ==> m[p, q] == draw(p * n + q)
    {
      var j := 0;
      while j < n
        invariant 0 <= j <= n
        invariant forall p, q :: 0 <= p < i && 0 <= q < n ==> m[p, q] == draw(p * n + q)
        invariant forall q :: 0 <= q < j ==> m[i, q] == draw(i * n + q)
      {
        m[i, j] := draw(i * n + j);
        j := j + 1;
      }
      i := i + 1;
    }
    forall p | 0 <= p < n ensures ArrayMatrix(m)[p] == DrawnMatrix(n, draw)[p] {
      assert forall q :: 0 <= q < n ==> ArrayMatrix(m)[p][q] == DrawnMatrix(n, draw)[p][q];
    }
  }

  /** The loop that fills b with the next n draws. */
  method FillDrawnVector(n: nat, draw: nat -> real) returns (b: array<real>)
    ensures fresh(b) && b[..] == DrawnVector(n, draw)
  {
    b := new real[n];
    var i := 0;
    while i < n
      invariant 0 <= i <= n
      invariant forall k :: 0 <= k < i ==> b[k] == draw(n * n + k)
    {
      b[i] := draw(n * n + i);
      i := i + 1;
    }
  }
}
