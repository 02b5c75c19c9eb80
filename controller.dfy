/** The batch controller's arithmetic: which runner a solver name selects,
    the cost estimate shortest-job-first sorts on, and the residual and the
    per-equation checks every result is reported with. The residual is
    modelled squared: the square root is left to the floating-point side. */
module Controller {
  import opened Wrappers
  import opened Text
  import opened Numeric
  import opened Runners
  import opened SolverFactory

  // ------------------------------------------------------------- runners

  /** `runnerForSolver`: the lower-cased name selects a runner through the
      factory's alias table; the library runner is handed the library's
      answer for (A, b); any other name is rejected. */
  function RunnerForSolver(solverName: string, a: Matrix, b: Vector, libraryAnswer: Result<Vector>): (r: Result<RunnerState>)
    ensures Create(solverName).Err? ==> r == Err(UnknownName)
    ensures Create(solverName) == Ok(Cramer) ==> r == CramerInit(a, b)
    ensures Create(solverName) == Ok(GaussJordan) ==> r == GaussInit(a, b)
    ensures Create(solverName) == Ok(Library) ==> r == Ok(LibraryInit(b, libraryAnswer))
    ensures r.Ok? ==> Consistent(r.value)
  {
    var n := ToLower(solverName);
    if IsCramerAlias(n) then CramerInit(a, b)
    else if IsGaussJordanAlias(n) then GaussInit(a, b)
    else if IsLibraryAlias(n) then Ok(LibraryInit(b, libraryAnswer))
    else Err(UnknownName)
  }

  // ------------------------------------------------------- cost estimate

  /** A solver's cost factor, in units of 1/20: cramer 2.5, the Gauss-Jordan
      aliases 1.5, the library aliases 0.8, any other name 1.0. */
  function CostFactor(solverName: string): (w: nat)
    ensures 16 <= w <= 50
  {
    var n := ToLower(solverName);
    if IsCramerAlias(n) then 50
    else if IsGaussJordanAlias(n) then 30
    else if IsLibraryAlias(n) then 16
    else 20
  }

  function Cube(n: nat): nat { n * n * n }

  /** `estimateCost`: max(1, size)³ · factor / 1000 rounded half up, and at
      least 1. With the factor in units of 1/20 the quotient is
      n³ · w / 20000, and rounding half up is floor((2 n³ w + 20000) / 40000). */
  function EstimateCost(solverName: string, size: int): (r: nat)
    ensures r >= 1
  {
    var n: nat := if size >= 1 then size else 1;
    var rounded := (2 * Cube(n) * CostFactor(solverName) + 20000) / 40000;
    if rounded >= 1 then rounded else 1
  }

  lemma DivMonotone(a: nat, b: nat, c: nat)
    requires a <= b && c > 0
    ensures a / c <= b / c
  {
    if a / c > b / c {
      assert a == c * (a / c) + a % c && b == c * (b / c) + b % c;
      assert c * (a / c) >= c * (b / c + 1) by {
        assert a / c >= b / c + 1;
        MulMonotone(c, b / c + 1, a / c);
      }
    }
  }

  lemma MulMonotone(c: nat, x: nat, y: nat)
    requires x <= y
    ensures c * x <= c * y
  {
  }

  lemma CubeMonotone(m: nat, n: nat)
    requires m <= n
    ensures Cube(m) <= Cube(n)
  {
    MulMonotone(m, m, n);
    MulMonotone(n, m, n);
    assert m * m <= n * n;
    MulMonotone(m * m, m, n);
    MulMonotone(n, m * m, n * n);
    assert n * (m * m) == m * m * n;
  }

  /** The estimate never decreases as the system grows. */
  lemma EstimateMonotone(solverName: string, size1: int, size2: int)
    requires size1 <= size2
    ensures EstimateCost(solverName, size1) <= EstimateCost(solverName, size2)
  {
    var n1: nat := if size1 >= 1 then size1 else 1;
    var n2: nat := if size2 >= 1 then size2 else 1;
    var w := CostFactor(solverName);
    CubeMonotone(n1, n2);
    MulMonotone(2 * w, Cube(n1), Cube(n2));
    assert 2 * Cube(n1) * w == 2 * w * Cube(n1) && 2 * Cube(n2) * w == 2 * w * Cube(n2);
    DivMonotone(2 * Cube(n1) * w + 20000, 2 * Cube(n2) * w + 20000, 40000);
  }

  /** A larger cost factor never gives a smaller estimate. */
  lemma EstimateByFactor(name1: string, name2: string, size: int)
    requires CostFactor(name1) <= CostFactor(name2)
    ensures EstimateCost(name1, size) <= EstimateCost(name2, size)
  {
    var n: nat := if size >= 1 then size else 1;
    MulMonotone(2 * Cube(n), CostFactor(name1), CostFactor(name2));
    DivMonotone(2 * Cube(n) * CostFactor(name1) + 20000, 2 * Cube(n) * CostFactor(name2) + 20000, 40000);
  }

  /** For one size, Cramer is estimated no cheaper than Gauss-Jordan, which is
      no cheaper than an unknown solver, which is no cheaper than the library. */
  lemma EstimateBySolver(size: int, other: string)
    requires Create(other).Err?
    ensures EstimateCost("cramer", size) >= EstimateCost("gauss-jordan", size)
    ensures EstimateCost("gauss-jordan", size) >= EstimateCost(other, size)
    ensures EstimateCost(other, size) >= EstimateCost("library", size)
  {
    assert ToLower("cramer") == "cramer";
    assert ToLower("gauss-jordan") == "gauss-jordan";
    assert ToLower("library") == "library";
    EstimateByFactor("gauss-jordan", "cramer", size);
    EstimateByFactor(other, "gauss-jordan", size);
    EstimateByFactor("library", other, size);
  }

  /** The simple scenario (size 3) gives every default solver the estimate
      1, so shortest-job-first keeps the solver order; the medium scenario
      (size 20) gives 20, 12 and 6. */
  lemma EstimateExamples()
    ensures EstimateCost("cramer", 3) == 1 && EstimateCost("gauss-jordan", 3) == 1 && EstimateCost("library", 3) == 1
    ensures EstimateCost("cramer", 20) == 20 && EstimateCost("gauss-jordan", 20) == 12 && EstimateCost("library", 20) == 6
  {
    assert ToLower("cramer") == "cramer";
    assert ToLower("gauss-jordan") == "gauss-jordan";
    assert ToLower("library") == "library";
  }

  // ---------------------------------------------------- residual, checks

  function Min(a: nat, b: nat): nat { if a <= b then a else b }

  /** The left-hand side of one equation: the row times x over the entries
      both have. */
  function Lhs(row: Vector, x: Vector): real {
    DotPrefix(row, x, Min(|row|, |x|))
  }

  /** The right-hand side of equation i: b[i], or 0 past the end of b. */
  function Rhs(b: Vector, i: nat): real {
    if i < |b| then b[i] else 0.0
  }

  function Same(d: real): real { d }

  /** d². The second factor goes through `Same` so that the product is not
      a syntactic square, which the solver's arithmetic handles poorly. */
  function Square(d: real): real { d * Same(d) }

  /** A square is non-negative, and positive unless d is zero. */
  lemma SquarePositive(d: real)
    ensures Square(d) >= 0.0
    ensures d != 0.0 ==> Square(d) > 0.0
  {
    if d > 0.0 {
      MulPositive(d, d);
    } else if d < 0.0 {
      MulPositive(-d, -d);
    }
  }

  lemma MulPositive(x: real, y: real)
    requires x > 0.0 && y > 0.0
    ensures x * y > 0.0
  {
  }

  /** The squared error of each equation. */
  function SquaredErrors(a: Matrix, x: Vector, b: Vector): (e: seq<real>)
    ensures |e| == |a| && forall i :: 0 <= i < |a| ==> e[i] == Square(Lhs(a[i], x) - Rhs(b, i))
  {
    seq(|a|, i requires 0 <= i < |a| => Square(Lhs(a[i], x) - Rhs(b, i)))
  }

  /** The squared residual ‖A·x − b‖². */
  function SquaredResidual(a: Matrix, x: Vector, b: Vector): real {
    Sum(SquaredErrors(a, x, b))
  }

  /** `EquationCheck`: the row, both sides, and their distance. */
  datatype EquationCheck = EquationCheck(row: nat, lhs: real, rhs: real, error: real)

  /** One row's left-hand side, accumulated left to right. */
  method RowLhs(row: Vector, x: Vector) returns (s: real)
    ensures s == Lhs(row, x)
  {
    s := 0.0;
    var j := 0;
    while j < |row| && j < |x|
      invariant j <= Min(|row|, |x|)
      invariant s == DotPrefix(row, x, j)
    {
      s := s + row[j] * x[j];
      j := j + 1;
    }
  }

  /** The residual `computeResidual` reports, squared: no value (NaN) for
      an empty x, otherwise ‖A·x − b‖². */
  function Residual(a: Matrix, x: Vector, b: Vector): Option<real> {
    if |x| == 0 then None else Some(SquaredResidual(a, x, b))
  }

  /** `computeResidual`, squared: no value (NaN) for an empty x, otherwise
      the sum over the rows of the squared difference between the row's
      left-hand side and its right-hand side. */
  method ComputeResidual(a: Matrix, x: Vector, b: Vector) returns (r: Option<real>)
    ensures |x| == 0 <==> r.None?
    ensures r.Some? ==> r.value == SquaredResidual(a, x, b)
    ensures r == Residual(a, x, b)
  {
    if |x| == 0 {
      return None;
    }
    ghost var errors := SquaredErrors(a, x, b);
    var sum := 0.0;
    var i := 0;
    while i < |a|
      invariant i <= |a|
      invariant sum == Sum(errors[..i])
    {
      var ax := RowLhs(a[i], x);
      var diff := ax - Rhs(b, i);
      assert errors[..i + 1][..i] == errors[..i];
      sum := sum + diff * diff;
      i := i + 1;
    }
    assert errors[..|a|] == errors;
    return Some(sum);
  }

  /** What `verifyEquations` reports: nothing for an empty x, otherwise one
      check per row of A, in row order, holding the row's index, both sides
      of its equation and their distance. */
  function Checks(a: Matrix, x: Vector, b: Vector): (checks: seq<EquationCheck>)
    ensures |x| == 0 ==> checks == []
    ensures |x| > 0 ==> |checks| == |a|
    ensures |x| > 0 ==> forall i :: 0 <= i < |a| ==>
              checks[i] == EquationCheck(i, Lhs(a[i], x), Rhs(b, i), Abs(Lhs(a[i], x) - Rhs(b, i)))
  {
    if |x| == 0 then []
    else seq(|a|, i requires 0 <= i < |a| => EquationCheck(i, Lhs(a[i], x), Rhs(b, i), Abs(Lhs(a[i], x) - Rhs(b, i))))
  }

  /** `verifyEquations`, row by row. */
  method VerifyEquations(a: Matrix, x: Vector, b: Vector) returns (checks: seq<EquationCheck>)
    ensures checks == Checks(a, x, b)
  {
    checks := [];
    if |x| == 0 {
      return;
    }
    var i := 0;
    while i < |a|
      invariant i <= |a| && |checks| == i
      invariant forall k :: 0 <= k < i ==>
                  checks[k] == EquationCheck(k, Lhs(a[k], x), Rhs(b, k), Abs(Lhs(a[k], x) - Rhs(b, k)))
    {
      var lhs := RowLhs(a[i], x);
      var rhs := Rhs(b, i);
      checks := checks + [EquationCheck(i, lhs, rhs, Abs(lhs - rhs))];
      i := i + 1;
    }
  }

  /** Every check's error is non-negative, and zero exactly when its
      equation holds. */
  lemma CheckErrors(a: Matrix, x: Vector, b: Vector)
    ensures forall i :: 0 <= i < |Checks(a, x, b)| ==>
              Checks(a, x, b)[i].error >= 0.0
              && (Checks(a, x, b)[i].error == 0.0 <==> Checks(a, x, b)[i].lhs == Checks(a, x, b)[i].rhs)
  {
  }

  /** The errors of the checks, squared. */
  function CheckErrorsSquared(checks: seq<EquationCheck>): (e: seq<real>)
    ensures |e| == |checks|
  {
    seq(|checks|, i requires 0 <= i < |checks| => checks[i].error * checks[i].error)
  }

  /** The squared residual is the sum of the squared equation errors. */
  lemma ResidualIsErrorSum(a: Matrix, x: Vector, b: Vector, checks: seq<EquationCheck>)
    requires |checks| == |a|
    requires forall i :: 0 <= i < |a| ==>
               checks[i] == EquationCheck(i, Lhs(a[i], x), Rhs(b, i), Abs(Lhs(a[i], x) - Rhs(b, i)))
    ensures SquaredResidual(a, x, b) == Sum(CheckErrorsSquared(checks))
  {
    var e := SquaredErrors(a, x, b);
    var c := CheckErrorsSquared(checks);
    forall i | 0 <= i < |a|
      ensures e[i] == c[i]
    {
      var d := Lhs(a[i], x) - Rhs(b, i);
      assert Abs(d) * Abs(d) == Square(d);
    }
    assert e == c;
  }

  /** The squared residual is zero exactly when every equation holds. */
  lemma ResidualZeroIffSolved(a: Matrix, x: Vector, b: Vector)
    ensures SquaredResidual(a, x, b) == 0.0 <==> forall i :: 0 <= i < |a| ==> Lhs(a[i], x) == Rhs(b, i)
  {
    var e := SquaredErrors(a, x, b);
    forall i | 0 <= i < |a|
      ensures e[i] >= 0.0 && (e[i] == 0.0 <==> Lhs(a[i], x) == Rhs(b, i))
    {
      SquarePositive(Lhs(a[i], x) - Rhs(b, i));
    }
    SumNonNegative(e);
    if forall i :: 0 <= i < |a| ==> Lhs(a[i], x) == Rhs(b, i) {
      SumZeros(e);
    }
  }

  /** A sum of zeros is zero. */
  lemma {:induction false} SumZeros(xs: seq<real>)
    requires forall i :: 0 <= i < |xs| ==> xs[i] == 0.0
    ensures Sum(xs) == 0.0
  {
    if xs != [] {
      SumZeros(xs[..|xs| - 1]);
    }
  }

  /** An exact solution of an n×n system, as the solvers produce one, has
      squared residual zero. */
  lemma ExactSolutionResidual(a: Matrix, x: Vector, b: Vector)
    requires IsRect(a, |x|) && |b| == |a| && MatVec(a, x) == b
    ensures SquaredResidual(a, x, b) == 0.0
  {
    forall i | 0 <= i < |a|
      ensures Lhs(a[i], x) == Rhs(b, i)
    {
      assert MatVec(a, x)[i] == DotPrefix(a[i], x, |x|);
    }
    ResidualZeroIffSolved(a, x, b);
  }
}
