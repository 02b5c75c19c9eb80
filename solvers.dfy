/** The two hand-written solvers: Cramer's rule over the pivoted determinant,
    and Gauss-Jordan elimination with partial pivoting on an augmented matrix.
    Each is a function giving the result or the exception the solver throws,
    and a method over arrays proved to compute it. */
module Solvers {
  import opened Wrappers
  import opened Numeric
  import opened Elimination
  import opened ArrayOps

  /** `CramerSolver.solve`: null inputs, then |A| ≠ |b| are rejected. The
      determinants read only the leading n×n block of A, so longer rows are
      accepted and their extra entries ignored; a row shorter than n is
      refused here. A determinant below EPS is singular; otherwise
      x_i = det(A_i)/det(A) on the leading block. */
  function CramerResult(a: Option<Matrix>, b: Option<Vector>): (r: Result<Vector>)
    ensures (a.None? || b.None?) ==> r == Err(Missing)
    ensures a.Some? && b.Some? && |a.value| != |b.value| ==> r == Err(DimensionMismatch)
    ensures a.Some? && b.Some? && |a.value| == |b.value| && !IsWide(a.value) ==> r == Err(NotSquare)
    ensures a.Some? && b.Some? && |a.value| == |b.value| && IsWide(a.value) ==>
              (r.Err? <==> Abs(Det(Leading(a.value))) < EPS)
    ensures r.Err? ==> r.error in {Missing, DimensionMismatch, NotSquare, Singular}
    ensures r.Ok? ==> a.Some? && b.Some? && IsWide(a.value) && |b.value| == |a.value|
                      && Abs(Det(Leading(a.value))) >= EPS
                      && |r.value| == |b.value|
                      && forall i :: 0 <= i < |b.value| ==>
                           r.value[i] == Det(ReplaceColumn(Leading(a.value), b.value, i)) / Det(Leading(a.value))
  {
    if a.None? || b.None? then Err(Missing)
    else if |a.value| != |b.value| then Err(DimensionMismatch)
    else if !IsWide(a.value) then Err(NotSquare)
    else
      var square := Leading(a.value);
      var detA := Det(square);
      if Abs(detA) < EPS then Err(Singular)
      else Ok(CramerSolution(square, b.value, detA))
  }

  /** On a square A the leading block is A itself. */
  lemma CramerSquare(a: Matrix, b: Vector)
    requires IsSquare(a) && |b| == |a|
    ensures CramerResult(Some(a), Some(b)) == if Abs(Det(a)) < EPS then Err(Singular) else Ok(CramerSolution(a, b, Det(a)))
  {
    LeadingOfSquare(a);
  }

  /** Columns past the n-th change nothing: A and its leading block give the
      same answer. */
  lemma CramerLeadingBlock(a: Matrix, b: Vector)
    requires IsWide(a)
    ensures CramerResult(Some(a), Some(b)) == CramerResult(Some(Leading(a)), Some(b))
  {
    LeadingOfSquare(Leading(a));
  }

  /** `CramerSolver.solve` over arrays: the determinant of A, then one
      determinant per replaced column. */
  method CramerSolve(a: Option<Matrix>, b: Option<Vector>) returns (r: Result<Vector>)
    ensures r == CramerResult(a, b)
  {
    if a.None? || b.None? {
      return Err(Missing);
    }
    var am, bv := a.value, b.value;
    if |am| != |bv| {
      return Err(DimensionMismatch);
    }
    if !IsWide(am) {
      return Err(NotSquare);
    }
    var square := Leading(am);
    var aa := CopyToArray(square);
    var detA := Determinant(aa);
    if Abs(detA) < EPS {
      return Err(Singular);
    }
    var x := CramerColumns(square, bv, detA);
    r := Ok(x);
  }

  /** The loop of `CramerSolver.solve`: entry i is det(A with column i
      replaced by b) over det(A). */
  method CramerColumns(a: Matrix, b: Vector, detA: real) returns (x: seq<real>)
    requires IsSquare(a) && |b| == |a| && detA != 0.0
    ensures x == CramerSolution(a, b, detA)
  {
    var n := |b|;
    var solution := new real[n];
    var i := 0;
    while i < n
      invariant 0 <= i <= n
      invariant forall k :: 0 <= k < i ==> solution[k] == Det(ReplaceColumn(a, b, k)) / detA
    {
      var entry := CramerEntry(a, b, detA, i);
      solution[i] := entry;
      i := i + 1;
    }
    x := solution[..];
  }

  /** One pass of the Cramer loop: det(A with column i replaced by b) / det(A). */
  method CramerEntry(a: Matrix, b: Vector, detA: real, i: nat) returns (entry: real)
    requires IsSquare(a) && |b| == |a| && detA != 0.0 && i < |a|
    ensures entry == Det(ReplaceColumn(a, b, i)) / detA
  {
    var modified := ReplaceColumnCopy(a, b, i);
    var detAi := Determinant(modified);
    entry := detAi / detA;
  }

  /** `GaussJordanSolver.solve`: null inputs, then an empty A or |b| ≠ n, then
      a row of the wrong length are rejected; then the column loop runs and the
      last column is the solution. */
  function GaussJordanResult(a: Option<Matrix>, b: Option<Vector>): (r: Result<Vector>)
    ensures (a.None? || b.None?) ==> r == Err(Missing)
    ensures a.Some? && b.Some? && (|a.value| == 0 || |b.value| != |a.value|) ==> r == Err(DimensionMismatch)
    ensures a.Some? && b.Some? && |a.value| > 0 && |b.value| == |a.value| && !IsSquare(a.value) ==> r == Err(NotSquare)
    ensures r.Err? ==> r.error in {Missing, DimensionMismatch, NotSquare, Singular}
    ensures a.Some? && b.Some? && |a.value| > 0 && |b.value| == |a.value| && IsSquare(a.value) ==>
              (r.Ok? <==> GaussJordanFrom(Augmented(a.value, b.value), |a.value|, 0).Ok?)
    ensures r.Ok? ==> a.Some? && b.Some? && IsSquare(a.value) && |a.value| >= 1 && |r.value| == |a.value|
                      && r.value == LastColumn(GaussJordanFrom(Augmented(a.value, b.value), |a.value|, 0).value, |a.value|)
  {
    if a.None? || b.None? then Err(Missing)
    else if |a.value| == 0 || |b.value| != |a.value| then Err(DimensionMismatch)
    else if !IsSquare(a.value) then Err(NotSquare)
    else
      var n := |a.value|;
      match GaussJordanFrom(Augmented(a.value, b.value), n, 0)
      case Err(e) => Err(e)
      case Ok(m) => Ok(LastColumn(m, n))
  }

  /** `buildAugmentedMatrix`: rows are copied in order and the first row whose
      length is not n stops the construction. */
  method BuildAugmented(a: Matrix, b: Vector) returns (aug: array2<real>, ok: bool)
    requires |b| == |a|
    ensures fresh(aug) && aug.Length0 == |a| && aug.Length1 == |a| + 1
    ensures ok <==> IsSquare(a)
    ensures ok ==> ArrayMatrix(aug) == Augmented(a, b)
  {
    var n := |a|;
    aug := new real[n, n + 1];
    var i := 0;
    while i < n
      invariant 0 <= i <= n
      invariant forall p :: 0 <= p < i ==> |a[p]| == n
      invariant forall p, q :: 0 <= p < i && 0 <= q <= n ==> aug[p, q] == if q < n then a[p][q] else b[p]
    {
      if |a[i]| != n {
        return aug, false;
      }
      var j := 0;
      while j < n
        invariant 0 <= j <= n
        invariant forall p, q :: 0 <= p < i && 0 <= q <= n ==> aug[p, q] == if q < n then a[p][q] else b[p]
        invariant forall q :: 0 <= q < j ==> aug[i, q] == a[i][q]
      {
        aug[i, j] := a[i][j];
        j := j + 1;
      }
      aug[i, n] := b[i];
      i := i + 1;
    }
    ok := true;
    ArrayMatrixEquals(aug, Augmented(a, b));
  }

  /** `GaussJordanSolver.solve` over the augmented array. */
  method GaussJordanSolve(a: Option<Matrix>, b: Option<Vector>) returns (r: Result<Vector>)
    ensures r == GaussJordanResult(a, b)
  {
    if a.None? || b.None? {
      return Err(Missing);
    }
    var am, bv := a.value, b.value;
    var n := |am|;
    if n == 0 || |bv| != n {
      return Err(DimensionMismatch);
    }
    var aug, ok := BuildAugmented(am, bv);
    if !ok {
      return Err(NotSquare);
    }
    var reduced := ReduceColumns(aug, n);
    if !reduced {
      return Err(Singular);
    }
    var x := LastColumnOf(aug, n);
    r := Ok(x);
  }

  /** The column loop of `GaussJordanSolver.solve`: it stops at the first
      column without a usable pivot, and otherwise leaves the reduced system. */
  method ReduceColumns(aug: array2<real>, n: nat) returns (ok: bool)
    requires aug.Length0 == n && aug.Length1 == n + 1
    modifies aug
    ensures ok <==> GaussJordanFrom(old(ArrayMatrix(aug)), n, 0).Ok?
    ensures ok ==> ArrayMatrix(aug) == GaussJordanFrom(old(ArrayMatrix(aug)), n, 0).value
  {
    ghost var target := GaussJordanFrom(ArrayMatrix(aug), n, 0);
    var col := 0;
    while col < n
      invariant 0 <= col <= n
      invariant GaussJordanFrom(ArrayMatrix(aug), n, col) == target
    {
      GaussJordanFromStep(ArrayMatrix(aug), n, col);
      var stepOk := GaussJordanColumn(aug, n, col);
      if !stepOk {
        return false;
      }
      col := col + 1;
    }
    ok := true;
  }

  /** The left n×n block is the identity. */
  predicate LeftIdentity(m: Matrix, n: nat)
    requires IsAugmented(m, n)
  {
    forall i, j :: 0 <= i < n && 0 <= j < n ==> m[i][j] == if i == j then 1.0 else 0.0
  }

  lemma {:induction false} UnitRowDot(row: Vector, x: Vector, i: nat, k: nat)
    requires k <= |row| && k <= |x| && i < |row|
    requires forall j :: 0 <= j < k && j != i ==> row[j] == 0.0
    requires i < k ==> row[i] == 1.0
    ensures DotPrefix(row, x, k) == if i < k then x[i] else 0.0
  {
    if k > 0 {
      UnitRowDot(row, x, i, k - 1);
    }
  }

  /** A reduced system whose left block is the identity has its last column as
      its one and only solution. */
  lemma IdentitySolution(m: Matrix, n: nat, y: Vector)
    requires IsAugmented(m, n) && LeftIdentity(m, n) && |y| == n
    ensures Solves(m, n, y) <==> y == LastColumn(m, n)
  {
    forall i | 0 <= i < n ensures DotPrefix(m[i], y, n) == y[i] {
      UnitRowDot(m[i], y, i, n);
    }
  }

  lemma {:induction false} DotPrefixAppend(row: Vector, extra: real, x: Vector, k: nat)
    requires k <= |row| && k <= |x|
    ensures DotPrefix(row + [extra], x, k) == DotPrefix(row, x, k)
  {
    if k > 0 {
      DotPrefixAppend(row, extra, x, k - 1);
      assert (row + [extra])[k - 1] == row[k - 1];
    }
  }

  /** The augmented system is A·y = b. */
  lemma AugmentedSolves(a: Matrix, b: Vector, y: Vector)
    requires IsSquare(a) && |b| == |a| && |y| == |a|
    ensures Solves(Augmented(a, b), |a|, y) <==> MatVec(a, y) == b
  {
    var n := |a|;
    var m := Augmented(a, b);
    forall i | 0 <= i < n ensures DotPrefix(m[i], y, n) == MatVec(a, y)[i] {
      assert m[i] == a[i] + [b[i]];
      DotPrefixAppend(a[i], b[i], y, n);
    }
    if MatVec(a, y) != b {
      var i :| 0 <= i < n && MatVec(a, y)[i] != b[i];
      assert m[i][n] == b[i];
    }
  }

  /** Whenever the elimination succeeds and leaves the identity on the left,
      the returned vector is the one and only solution of A·x = b. */
  lemma GaussJordanSolvesSystem(a: Matrix, b: Vector, y: Vector)
    requires GaussJordanResult(Some(a), Some(b)).Ok?
    requires LeftIdentity(GaussJordanFrom(Augmented(a, b), |a|, 0).value, |a|)
    requires |y| == |a|
    ensures |b| == |a| && (MatVec(a, y) == b <==> y == GaussJordanResult(Some(a), Some(b)).value)
  {
    var n := |a|;
    var m := GaussJordanFrom(Augmented(a, b), n, 0).value;
    GaussJordanKeepsSolutions(Augmented(a, b), n, 0, y);
    IdentitySolution(m, n, y);
    AugmentedSolves(a, b, y);
  }

  // ------------------------------------------------------ worked example

  /** The system of the solver tests, whose solution is (1, -2, -2). */
  const EXAMPLE_A: Matrix := [[3.0, 2.0, -1.0], [2.0, -2.0, 4.0], [-1.0, 0.5, -1.0]]
  const EXAMPLE_B: Vector := [1.0, -2.0, 0.0]

  /** The augmented matrix after each column step. */
  const EXAMPLE_1: Matrix := [[1.0, 2.0 / 3.0, -1.0 / 3.0, 1.0 / 3.0],
                              [0.0, -10.0 / 3.0, 14.0 / 3.0, -8.0 / 3.0],
                              [0.0, 7.0 / 6.0, -4.0 / 3.0, 1.0 / 3.0]]
  const EXAMPLE_2: Matrix := [[1.0, 0.0, 3.0 / 5.0, -1.0 / 5.0],
                              [0.0, 1.0, -7.0 / 5.0, 4.0 / 5.0],
                              [0.0, 0.0, 3.0 / 10.0, -3.0 / 5.0]]
  const EXAMPLE_3: Matrix := [[1.0, 0.0, 0.0, 1.0],
                              [0.0, 1.0, 0.0, -2.0],
                              [0.0, 0.0, 1.0, -2.0]]

  /** Rows of a 3×4 matrix given one by one. */
  lemma Rows3(m: Matrix, r0: Vector, r1: Vector, r2: Vector)
    requires |m| == 3 && m[0] == r0 && m[1] == r1 && m[2] == r2
    ensures m == [r0, r1, r2]
  {
  }

  /** The first column: pivot 3 stays in place, its row is divided by 3
      and the column is cleared below it. */
  lemma ExampleColumn0()
    ensures IsSquare(EXAMPLE_A) && IsAugmented(Augmented(EXAMPLE_A, EXAMPLE_B), 3)
    ensures GaussJordanStep(Augmented(EXAMPLE_A, EXAMPLE_B), 3, 0) == Ok(EXAMPLE_1)
  {
    var m := Augmented(EXAMPLE_A, EXAMPLE_B);
    assert m[0] == [3.0, 2.0, -1.0, 1.0];
    assert m[1] == [2.0, -2.0, 4.0, -2.0];
    assert m[2] == [-1.0, 0.5, -1.0, 0.0];
    assert PivotRow(m, 0, 0) == 0;
    var m1 := SwapRows(m, 0, 0);
    assert m1 == m;
    var m2 := NormalizeRow(m1, 0, 0);
    assert m2[0] == [1.0, 2.0 / 3.0, -1.0 / 3.0, 1.0 / 3.0];
    var m3 := EliminateColumn(m2, 0, 0);
    assert m3[0] == EXAMPLE_1[0];
    assert m3[1] == RowMinus(m2[1], 2.0, m2[0]) == EXAMPLE_1[1];
    assert m3[2] == RowMinus(m2[2], -1.0, m2[0]) == EXAMPLE_1[2];
    Rows3(m3, EXAMPLE_1[0], EXAMPLE_1[1], EXAMPLE_1[2]);
  }

  /** The second column: pivot -10/3 on the diagonal. */
  lemma ExampleColumn1()
    ensures IsAugmented(EXAMPLE_1, 3) && GaussJordanStep(EXAMPLE_1, 3, 1) == Ok(EXAMPLE_2)
  {
    var m := EXAMPLE_1;
    assert PivotRow(m, 1, 1) == 1;
    var m1 := SwapRows(m, 1, 1);
    assert m1 == m;
    var m2 := NormalizeRow(m1, 1, 1);
    assert m2[1] == [0.0, 1.0, -7.0 / 5.0, 4.0 / 5.0];
    var m3 := EliminateColumn(m2, 1, 1);
    assert m3[0] == RowMinus(m2[0], 2.0 / 3.0, m2[1]) == EXAMPLE_2[0];
    assert m3[1] == EXAMPLE_2[1];
    assert m3[2] == RowMinus(m2[2], 7.0 / 6.0, m2[1]) == EXAMPLE_2[2];
    Rows3(m3, EXAMPLE_2[0], EXAMPLE_2[1], EXAMPLE_2[2]);
  }

  /** The third column: pivot 3/10 on the diagonal; the last column is
      then the solution. */
  lemma ExampleColumn2()
    ensures IsAugmented(EXAMPLE_2, 3) && GaussJordanStep(EXAMPLE_2, 3, 2) == Ok(EXAMPLE_3)
  {
    var m := EXAMPLE_2;
    assert PivotRow(m, 2, 2) == 2;
    var m1 := SwapRows(m, 2, 2);
    assert m1 == m;
    var m2 := NormalizeRow(m1, 2, 2);
    assert m2[2] == [0.0, 0.0, 1.0, -2.0];
    var m3 := EliminateColumn(m2, 2, 2);
    assert m3[0] == RowMinus(m2[0], 3.0 / 5.0, m2[2]) == EXAMPLE_3[0];
    assert m3[1] == RowMinus(m2[1], -7.0 / 5.0, m2[2]) == EXAMPLE_3[1];
    assert m3[2] == EXAMPLE_3[2];
    Rows3(m3, EXAMPLE_3[0], EXAMPLE_3[1], EXAMPLE_3[2]);
  }

  /** The tests' expected answer solves the tests' system. */
  lemma ExampleSolves()
    ensures MatVec(EXAMPLE_A, [1.0, -2.0, -2.0]) == EXAMPLE_B
  {
    var x := [1.0, -2.0, -2.0];
    var y := MatVec(EXAMPLE_A, x);
    assert y[0] == DotPrefix(EXAMPLE_A[0], x, 3) == 3.0 - 4.0 + 2.0;
    assert y[1] == DotPrefix(EXAMPLE_A[1], x, 3) == 2.0 + 4.0 - 8.0;
    assert y[2] == DotPrefix(EXAMPLE_A[2], x, 3) == -1.0 - 1.0 + 2.0;
  }

  /** On the tests' system Gauss-Jordan returns (1, -2, -2), which solves it. */
  lemma StrategyExample()
    ensures GaussJordanResult(Some(EXAMPLE_A), Some(EXAMPLE_B)) == Ok([1.0, -2.0, -2.0])
    ensures MatVec(EXAMPLE_A, [1.0, -2.0, -2.0]) == EXAMPLE_B
  {
    ExampleColumn0();
    ExampleColumn1();
    ExampleColumn2();
    assert GaussJordanFrom(EXAMPLE_2, 3, 2) == Ok(EXAMPLE_3);
    assert GaussJordanFrom(EXAMPLE_1, 3, 1) == Ok(EXAMPLE_3);
    var x := LastColumn(EXAMPLE_3, 3);
    assert x == [1.0, -2.0, -2.0];
    ExampleSolves();
  }

  // ------------------------------------------------ determinants of the example

  /** The tests' A after the determinant procedure's first and second columns. */
  const EXAMPLE_A_C0: Matrix := [[3.0, 2.0, -1.0], [0.0, -10.0 / 3.0, 14.0 / 3.0], [0.0, 7.0 / 6.0, -4.0 / 3.0]]
  const EXAMPLE_A_C1: Matrix := [[3.0, 2.0, -1.0], [0.0, -10.0 / 3.0, 14.0 / 3.0], [0.0, 0.0, 3.0 / 10.0]]

  lemma DetAPivot0()
    ensures PivotRow(EXAMPLE_A, 0, 0) == 0
  {
  }

  lemma DetAPlaced0()
    ensures !SmallPivot(EXAMPLE_A, 0) && PivotPlaced(EXAMPLE_A, 0) == EXAMPLE_A
  {
    DetAPivot0();
  }

  lemma DetAEliminate0()
    ensures EliminateBelow(EXAMPLE_A, 0) == EXAMPLE_A_C0
  {
    var r := EliminateBelow(EXAMPLE_A, 0);
    assert r[1] == EXAMPLE_A_C0[1];
    assert r[2] == EXAMPLE_A_C0[2];
  }

  lemma DetAColumn0()
    ensures DetFrom(EXAMPLE_A, 0, 1.0) == DetFrom(EXAMPLE_A_C0, 1, 3.0)
  {
    DetAPlaced0();
    DetAEliminate0();
    assert ColumnStep(EXAMPLE_A, 0, 1.0).0 == EXAMPLE_A_C0;
    assert ColumnStep(EXAMPLE_A, 0, 1.0).1 == 3.0;
  }

  lemma DetAPivot1()
    ensures PivotRow(EXAMPLE_A_C0, 1, 1) == 1
  {
  }

  lemma DetAPlaced1()
    ensures !SmallPivot(EXAMPLE_A_C0, 1) && PivotPlaced(EXAMPLE_A_C0, 1) == EXAMPLE_A_C0
  {
    DetAPivot1();
  }

  lemma DetAEliminate1()
    ensures EliminateBelow(EXAMPLE_A_C0, 1) == EXAMPLE_A_C1
  {
    var r := EliminateBelow(EXAMPLE_A_C0, 1);
    assert r[2] == EXAMPLE_A_C1[2];
  }

  lemma DetAColumn1()
    ensures DetFrom(EXAMPLE_A_C0, 1, 3.0) == DetFrom(EXAMPLE_A_C1, 2, -10.0)
  {
    DetAPlaced1();
    DetAEliminate1();
    assert ColumnStep(EXAMPLE_A_C0, 1, 3.0).0 == EXAMPLE_A_C1;
    assert ColumnStep(EXAMPLE_A_C0, 1, 3.0).1 == -10.0;
  }

  lemma DetAPivot2()
    ensures PivotRow(EXAMPLE_A_C1, 2, 2) == 2
  {
  }

  lemma DetAPlaced2()
    ensures !SmallPivot(EXAMPLE_A_C1, 2) && PivotPlaced(EXAMPLE_A_C1, 2) == EXAMPLE_A_C1
  {
    DetAPivot2();
  }

  lemma DetAEliminate2()
    ensures EliminateBelow(EXAMPLE_A_C1, 2) == EXAMPLE_A_C1
  {
  }

  lemma DetAColumn2()
    ensures DetFrom(EXAMPLE_A_C1, 2, -10.0) == DetFrom(EXAMPLE_A_C1, 3, -3.0)
  {
    DetAPlaced2();
    DetAEliminate2();
    assert ColumnStep(EXAMPLE_A_C1, 2, -10.0).0 == EXAMPLE_A_C1;
    assert ColumnStep(EXAMPLE_A_C1, 2, -10.0).1 == -3.0;
  }

  /** det A = -3, as the procedure computes it column by column. */
  lemma DetAValue()
    ensures Det(EXAMPLE_A) == -3.0
  {
    DetAColumn0();
    DetAColumn1();
    DetAColumn2();
  }

  /** The tests' A with column 0 replaced by b. */
  const EXAMPLE_A0: Matrix := [[1.0, 2.0, -1.0], [-2.0, -2.0, 4.0], [0.0, 1.0 / 2.0, -1.0]]
  /** EXAMPLE_A0 after the determinant procedure's first and second columns. */
  const EXAMPLE_A0_C0: Matrix := [[-2.0, -2.0, 4.0], [0.0, 1.0, 1.0], [0.0, 1.0 / 2.0, -1.0]]
  const EXAMPLE_A0_C1: Matrix := [[-2.0, -2.0, 4.0], [0.0, 1.0, 1.0], [0.0, 0.0, -3.0 / 2.0]]
  /** EXAMPLE_A0 with rows 0 and 1 exchanged. */
  const EXAMPLE_A0_S0: Matrix := [[-2.0, -2.0, 4.0], [1.0, 2.0, -1.0], [0.0, 1.0 / 2.0, -1.0]]

  lemma DetA0Pivot0()
    ensures PivotRow(EXAMPLE_A0, 0, 0) == 1
  {
  }

  lemma DetA0Placed0()
    ensures !SmallPivot(EXAMPLE_A0, 0) && PivotPlaced(EXAMPLE_A0, 0) == EXAMPLE_A0_S0
  {
    DetA0Pivot0();
    var r := SwapRows(EXAMPLE_A0, 0, 1);
    assert r[0] == EXAMPLE_A0_S0[0] && r[1] == EXAMPLE_A0_S0[1];
  }

  lemma DetA0Eliminate0()
    ensures EliminateBelow(EXAMPLE_A0_S0, 0) == EXAMPLE_A0_C0
  {
    var r := EliminateBelow(EXAMPLE_A0_S0, 0);
    assert r[1] == EXAMPLE_A0_C0[1];
    assert r[2] == EXAMPLE_A0_C0[2];
  }

  lemma DetA0Column0()
    ensures DetFrom(EXAMPLE_A0, 0, 1.0) == DetFrom(EXAMPLE_A0_C0, 1, 2.0)
  {
    DetA0Placed0();
    DetA0Eliminate0();
    assert ColumnStep(EXAMPLE_A0, 0, 1.0).0 == EXAMPLE_A0_C0;
    assert ColumnStep(EXAMPLE_A0, 0, 1.0).1 == 2.0;
  }

  lemma DetA0Pivot1()
    ensures PivotRow(EXAMPLE_A0_C0, 1, 1) == 1
  {
  }

  lemma DetA0Placed1()
    ensures !SmallPivot(EXAMPLE_A0_C0, 1) && PivotPlaced(EXAMPLE_A0_C0, 1) == EXAMPLE_A0_C0
  {
    DetA0Pivot1();
  }

  lemma DetA0Eliminate1()
    ensures EliminateBelow(EXAMPLE_A0_C0, 1) == EXAMPLE_A0_C1
  {
    var r := EliminateBelow(EXAMPLE_A0_C0, 1);
    assert r[2] == EXAMPLE_A0_C1[2];
  }

  lemma DetA0Column1()
    ensures DetFrom(EXAMPLE_A0_C0, 1, 2.0) == DetFrom(EXAMPLE_A0_C1, 2, 2.0)
  {
    DetA0Placed1();
    DetA0Eliminate1();
    assert ColumnStep(EXAMPLE_A0_C0, 1, 2.0).0 == EXAMPLE_A0_C1;
    assert ColumnStep(EXAMPLE_A0_C0, 1, 2.0).1 == 2.0;
  }

  lemma DetA0Pivot2()
    ensures PivotRow(EXAMPLE_A0_C1, 2, 2) == 2
  {
  }

  lemma DetA0Placed2()
    ensures !SmallPivot(EXAMPLE_A0_C1, 2) && PivotPlaced(EXAMPLE_A0_C1, 2) == EXAMPLE_A0_C1
  {
    DetA0Pivot2();
  }

  lemma DetA0Eliminate2()
    ensures EliminateBelow(EXAMPLE_A0_C1, 2) == EXAMPLE_A0_C1
  {
  }

  lemma DetA0Column2()
    ensures DetFrom(EXAMPLE_A0_C1, 2, 2.0) == DetFrom(EXAMPLE_A0_C1, 3, -3.0)
  {
    DetA0Placed2();
    DetA0Eliminate2();
    assert ColumnStep(EXAMPLE_A0_C1, 2, 2.0).0 == EXAMPLE_A0_C1;
    assert ColumnStep(EXAMPLE_A0_C1, 2, 2.0).1 == -3.0;
  }

  /** det A_0 = -3, as the procedure computes it column by column. */
  lemma DetA0Value()
    ensures Det(EXAMPLE_A0) == -3.0
  {
    DetA0Column0();
    DetA0Column1();
    DetA0Column2();
  }

  /** The tests' A with column 1 replaced by b. */
  const EXAMPLE_A1: Matrix := [[3.0, 1.0, -1.0], [2.0, -2.0, 4.0], [-1.0, 0.0, -1.0]]
  /** EXAMPLE_A1 after the determinant procedure's first and second columns. */
  const EXAMPLE_A1_C0: Matrix := [[3.0, 1.0, -1.0], [0.0, -8.0 / 3.0, 14.0 / 3.0], [0.0, 1.0 / 3.0, -4.0 / 3.0]]
  const EXAMPLE_A1_C1: Matrix := [[3.0, 1.0, -1.0], [0.0, -8.0 / 3.0, 14.0 / 3.0], [0.0, 0.0, -3.0 / 4.0]]

  lemma DetA1Pivot0()
    ensures PivotRow(EXAMPLE_A1, 0, 0) == 0
  {
  }

  lemma DetA1Placed0()
    ensures !SmallPivot(EXAMPLE_A1, 0) && PivotPlaced(EXAMPLE_A1, 0) == EXAMPLE_A1
  {
    DetA1Pivot0();
  }

  lemma DetA1Eliminate0()
    ensures EliminateBelow(EXAMPLE_A1, 0) == EXAMPLE_A1_C0
  {
    var r := EliminateBelow(EXAMPLE_A1, 0);
    assert r[1] == EXAMPLE_A1_C0[1];
    assert r[2] == EXAMPLE_A1_C0[2];
  }

  lemma DetA1Column0()
    ensures DetFrom(EXAMPLE_A1, 0, 1.0) == DetFrom(EXAMPLE_A1_C0, 1, 3.0)
  {
    DetA1Placed0();
    DetA1Eliminate0();
    assert ColumnStep(EXAMPLE_A1, 0, 1.0).0 == EXAMPLE_A1_C0;
    assert ColumnStep(EXAMPLE_A1, 0, 1.0).1 == 3.0;
  }

  lemma DetA1Pivot1()
    ensures PivotRow(EXAMPLE_A1_C0, 1, 1) == 1
  {
  }

  lemma DetA1Placed1()
    ensures !SmallPivot(EXAMPLE_A1_C0, 1) && PivotPlaced(EXAMPLE_A1_C0, 1) == EXAMPLE_A1_C0
  {
    DetA1Pivot1();
  }

  lemma DetA1Eliminate1()
    ensures EliminateBelow(EXAMPLE_A1_C0, 1) == EXAMPLE_A1_C1
  {
    var r := EliminateBelow(EXAMPLE_A1_C0, 1);
    assert r[2] == EXAMPLE_A1_C1[2];
  }

  lemma DetA1Column1()
    ensures DetFrom(EXAMPLE_A1_C0, 1, 3.0) == DetFrom(EXAMPLE_A1_C1, 2, -8.0)
  {
    DetA1Placed1();
    DetA1Eliminate1();
    assert ColumnStep(EXAMPLE_A1_C0, 1, 3.0).0 == EXAMPLE_A1_C1;
    assert ColumnStep(EXAMPLE_A1_C0, 1, 3.0).1 == -8.0;
  }

  lemma DetA1Pivot2()
    ensures PivotRow(EXAMPLE_A1_C1, 2, 2) == 2
  {
  }

  lemma DetA1Placed2()
    ensures !SmallPivot(EXAMPLE_A1_C1, 2) && PivotPlaced(EXAMPLE_A1_C1, 2) == EXAMPLE_A1_C1
  {
    DetA1Pivot2();
  }

  lemma DetA1Eliminate2()
    ensures EliminateBelow(EXAMPLE_A1_C1, 2) == EXAMPLE_A1_C1
  {
  }

  lemma DetA1Column2()
    ensures DetFrom(EXAMPLE_A1_C1, 2, -8.0) == DetFrom(EXAMPLE_A1_C1, 3, 6.0)
  {
    DetA1Placed2();
    DetA1Eliminate2();
    assert ColumnStep(EXAMPLE_A1_C1, 2, -8.0).0 == EXAMPLE_A1_C1;
    assert ColumnStep(EXAMPLE_A1_C1, 2, -8.0).1 == 6.0;
  }

  /** det A_1 = 6, as the procedure computes it column by column. */
  lemma DetA1Value()
    ensures Det(EXAMPLE_A1) == 6.0
  {
    DetA1Column0();
    DetA1Column1();
    DetA1Column2();
  }

  /** The tests' A with column 2 replaced by b. */
  const EXAMPLE_A2: Matrix := [[3.0, 2.0, 1.0], [2.0, -2.0, -2.0], [-1.0, 1.0 / 2.0, 0.0]]
  /** EXAMPLE_A2 after the determinant procedure's first and second columns. */
  const EXAMPLE_A2_C0: Matrix := [[3.0, 2.0, 1.0], [0.0, -10.0 / 3.0, -8.0 / 3.0], [0.0, 7.0 / 6.0, 1.0 / 3.0]]
  const EXAMPLE_A2_C1: Matrix := [[3.0, 2.0, 1.0], [0.0, -10.0 / 3.0, -8.0 / 3.0], [0.0, 0.0, -3.0 / 5.0]]

  lemma DetA2Pivot0()
    ensures PivotRow(EXAMPLE_A2, 0, 0) == 0
  {
  }

  lemma DetA2Placed0()
    ensures !SmallPivot(EXAMPLE_A2, 0) && PivotPlaced(EXAMPLE_A2, 0) == EXAMPLE_A2
  {
    DetA2Pivot0();
  }

  lemma DetA2Eliminate0()
    ensures EliminateBelow(EXAMPLE_A2, 0) == EXAMPLE_A2_C0
  {
    var r := EliminateBelow(EXAMPLE_A2, 0);
    assert r[1] == EXAMPLE_A2_C0[1];
    assert r[2] == EXAMPLE_A2_C0[2];
  }

  lemma DetA2Column0()
    ensures DetFrom(EXAMPLE_A2, 0, 1.0) == DetFrom(EXAMPLE_A2_C0, 1, 3.0)
  {
    DetA2Placed0();
    DetA2Eliminate0();
    assert ColumnStep(EXAMPLE_A2, 0, 1.0).0 == EXAMPLE_A2_C0;
    assert ColumnStep(EXAMPLE_A2, 0, 1.0).1 == 3.0;
  }

  lemma DetA2Pivot1()
    ensures PivotRow(EXAMPLE_A2_C0, 1, 1) == 1
  {
  }

  lemma DetA2Placed1()
    ensures !SmallPivot(EXAMPLE_A2_C0, 1) && PivotPlaced(EXAMPLE_A2_C0, 1) == EXAMPLE_A2_C0
  {
    DetA2Pivot1();
  }

  lemma DetA2Eliminate1()
    ensures EliminateBelow(EXAMPLE_A2_C0, 1) == EXAMPLE_A2_C1
  {
    var r := EliminateBelow(EXAMPLE_A2_C0, 1);
    assert r[2] == EXAMPLE_A2_C1[2];
  }

  lemma DetA2Column1()
    ensures DetFrom(EXAMPLE_A2_C0, 1, 3.0) == DetFrom(EXAMPLE_A2_C1, 2, -10.0)
  {
    DetA2Placed1();
    DetA2Eliminate1();
    assert ColumnStep(EXAMPLE_A2_C0, 1, 3.0).0 == EXAMPLE_A2_C1;
    assert ColumnStep(EXAMPLE_A2_C0, 1, 3.0).1 == -10.0;
  }

  lemma DetA2Pivot2()
    ensures PivotRow(EXAMPLE_A2_C1, 2, 2) == 2
  {
  }

  lemma DetA2Placed2()
    ensures !SmallPivot(EXAMPLE_A2_C1, 2) && PivotPlaced(EXAMPLE_A2_C1, 2) == EXAMPLE_A2_C1
  {
    DetA2Pivot2();
  }

  lemma DetA2Eliminate2()
    ensures EliminateBelow(EXAMPLE_A2_C1, 2) == EXAMPLE_A2_C1
  {
  }

  lemma DetA2Column2()
    ensures DetFrom(EXAMPLE_A2_C1, 2, -10.0) == DetFrom(EXAMPLE_A2_C1, 3, 6.0)
  {
    DetA2Placed2();
    DetA2Eliminate2();
    assert ColumnStep(EXAMPLE_A2_C1, 2, -10.0).0 == EXAMPLE_A2_C1;
    assert ColumnStep(EXAMPLE_A2_C1, 2, -10.0).1 == 6.0;
  }

  /** det A_2 = 6, as the procedure computes it column by column. */
  lemma DetA2Value()
    ensures Det(EXAMPLE_A2) == 6.0
  {
    DetA2Column0();
    DetA2Column1();
    DetA2Column2();
  }

  /** The three matrices of Cramer's rule on the tests' system. */
  lemma ExampleReplaced()
    ensures ReplaceColumn(EXAMPLE_A, EXAMPLE_B, 0) == EXAMPLE_A0
    ensures ReplaceColumn(EXAMPLE_A, EXAMPLE_B, 1) == EXAMPLE_A1
    ensures ReplaceColumn(EXAMPLE_A, EXAMPLE_B, 2) == EXAMPLE_A2
  {
    var r0, r1, r2 := ReplaceColumn(EXAMPLE_A, EXAMPLE_B, 0), ReplaceColumn(EXAMPLE_A, EXAMPLE_B, 1), ReplaceColumn(EXAMPLE_A, EXAMPLE_B, 2);
    assert r0[0] == EXAMPLE_A0[0] && r0[1] == EXAMPLE_A0[1] && r0[2] == EXAMPLE_A0[2];
    assert r1[0] == EXAMPLE_A1[0] && r1[1] == EXAMPLE_A1[1] && r1[2] == EXAMPLE_A1[2];
    assert r2[0] == EXAMPLE_A2[0] && r2[1] == EXAMPLE_A2[1] && r2[2] == EXAMPLE_A2[2];
  }

  /** A square A is its own leading block. */
  lemma ExampleLeading()
    ensures IsWide(EXAMPLE_A) && Leading(EXAMPLE_A) == EXAMPLE_A
  {
    var l := Leading(EXAMPLE_A);
    assert l[0] == EXAMPLE_A[0] && l[1] == EXAMPLE_A[1] && l[2] == EXAMPLE_A[2];
  }

  /** x_i = det(A_i) / det(A) on the tests' system, entry by entry. */
  lemma ExampleCramerEntries()
    ensures Det(ReplaceColumn(EXAMPLE_A, EXAMPLE_B, 0)) / -3.0 == 1.0
    ensures Det(ReplaceColumn(EXAMPLE_A, EXAMPLE_B, 1)) / -3.0 == -2.0
    ensures Det(ReplaceColumn(EXAMPLE_A, EXAMPLE_B, 2)) / -3.0 == -2.0
  {
    ExampleReplaced();
    DetA0Value();
    DetA1Value();
    DetA2Value();
  }

  lemma ExampleCramerSolution()
    ensures CramerSolution(EXAMPLE_A, EXAMPLE_B, -3.0) == [1.0, -2.0, -2.0]
  {
    ExampleCramerEntries();
    var x := CramerSolution(EXAMPLE_A, EXAMPLE_B, -3.0);
    assert x[0] == 1.0 && x[1] == -2.0 && x[2] == -2.0;
  }

  /** On the tests' system Cramer's rule returns (1, -2, -2): det A = -3,
      det A_0 = -3, det A_1 = 6 and det A_2 = 6. */
  lemma CramerExample()
    ensures CramerResult(Some(EXAMPLE_A), Some(EXAMPLE_B)) == Ok([1.0, -2.0, -2.0])
  {
    ExampleLeading();
    DetAValue();
    ExampleCramerSolution();
  }

  /** A 2×3 matrix: Cramer's rule reads its leading 2×2 block, here the
      identity, and ignores the third column. */
  const WIDE_A: Matrix := [[1.0, 0.0, 5.0], [0.0, 1.0, 7.0]]
  const WIDE_B: Vector := [1.0, 2.0]

  /** The leading 2×2 block of WIDE_A: the identity. */
  const WIDE_LEAD: Matrix := [[1.0, 0.0], [0.0, 1.0]]

  lemma DetWidePivot0()
    ensures PivotRow(WIDE_LEAD, 0, 0) == 0
  {
  }

  lemma DetWidePlaced0()
    ensures !SmallPivot(WIDE_LEAD, 0) && PivotPlaced(WIDE_LEAD, 0) == WIDE_LEAD
  {
    DetWidePivot0();
  }

  lemma DetWideEliminate0()
    ensures EliminateBelow(WIDE_LEAD, 0) == WIDE_LEAD
  {
    var r := EliminateBelow(WIDE_LEAD, 0);
    assert r[1] == WIDE_LEAD[1];
  }

  lemma DetWideColumn0()
    ensures DetFrom(WIDE_LEAD, 0, 1.0) == DetFrom(WIDE_LEAD, 1, 1.0)
  {
    DetWidePlaced0();
    DetWideEliminate0();
    assert ColumnStep(WIDE_LEAD, 0, 1.0).0 == WIDE_LEAD;
    assert ColumnStep(WIDE_LEAD, 0, 1.0).1 == 1.0;
  }

  lemma DetWidePivot1()
    ensures PivotRow(WIDE_LEAD, 1, 1) == 1
  {
  }

  lemma DetWidePlaced1()
    ensures !SmallPivot(WIDE_LEAD, 1) && PivotPlaced(WIDE_LEAD, 1) == WIDE_LEAD
  {
    DetWidePivot1();
  }

  lemma DetWideEliminate1()
    ensures EliminateBelow(WIDE_LEAD, 1) == WIDE_LEAD
  {
  }

  lemma DetWideColumn1()
    ensures DetFrom(WIDE_LEAD, 1, 1.0) == DetFrom(WIDE_LEAD, 2, 1.0)
  {
    DetWidePlaced1();
    DetWideEliminate1();
    assert ColumnStep(WIDE_LEAD, 1, 1.0).0 == WIDE_LEAD;
    assert ColumnStep(WIDE_LEAD, 1, 1.0).1 == 1.0;
  }

  /** det of the identity = 1, as the procedure computes it column by column. */
  lemma DetWideValue()
    ensures Det(WIDE_LEAD) == 1.0
  {
    DetWideColumn0();
    DetWideColumn1();
  }

  /** The leading block with column 0 replaced by (1, 2). */
  const WIDE_LEAD0: Matrix := [[1.0, 0.0], [2.0, 1.0]]
  /** WIDE_LEAD0 after the determinant procedure's first column. */
  const WIDE_LEAD0_C0: Matrix := [[2.0, 1.0], [0.0, -1.0 / 2.0]]
  /** WIDE_LEAD0 with rows 0 and 1 exchanged. */
  const WIDE_LEAD0_S0: Matrix := [[2.0, 1.0], [1.0, 0.0]]

  lemma DetWide0Pivot0()
    ensures PivotRow(WIDE_LEAD0, 0, 0) == 1
  {
  }

  lemma DetWide0Placed0()
    ensures !SmallPivot(WIDE_LEAD0, 0) && PivotPlaced(WIDE_LEAD0, 0) == WIDE_LEAD0_S0
  {
    DetWide0Pivot0();
    var r := SwapRows(WIDE_LEAD0, 0, 1);
    assert r[0] == WIDE_LEAD0_S0[0] && r[1] == WIDE_LEAD0_S0[1];
  }

  lemma DetWide0Eliminate0()
    ensures EliminateBelow(WIDE_LEAD0_S0, 0) == WIDE_LEAD0_C0
  {
    var r := EliminateBelow(WIDE_LEAD0_S0, 0);
    assert r[1] == WIDE_LEAD0_C0[1];
  }

  lemma DetWide0Column0()
    ensures DetFrom(WIDE_LEAD0, 0, 1.0) == DetFrom(WIDE_LEAD0_C0, 1, -2.0)
  {
    DetWide0Placed0();
    DetWide0Eliminate0();
    assert ColumnStep(WIDE_LEAD0, 0, 1.0).0 == WIDE_LEAD0_C0;
    assert ColumnStep(WIDE_LEAD0, 0, 1.0).1 == -2.0;
  }

  lemma DetWide0Pivot1()
    ensures PivotRow(WIDE_LEAD0_C0, 1, 1) == 1
  {
  }

  lemma DetWide0Placed1()
    ensures !SmallPivot(WIDE_LEAD0_C0, 1) && PivotPlaced(WIDE_LEAD0_C0, 1) == WIDE_LEAD0_C0
  {
    DetWide0Pivot1();
  }

  lemma DetWide0Eliminate1()
    ensures EliminateBelow(WIDE_LEAD0_C0, 1) == WIDE_LEAD0_C0
  {
  }

  lemma DetWide0Column1()
    ensures DetFrom(WIDE_LEAD0_C0, 1, -2.0) == DetFrom(WIDE_LEAD0_C0, 2, 1.0)
  {
    DetWide0Placed1();
    DetWide0Eliminate1();
    assert ColumnStep(WIDE_LEAD0_C0, 1, -2.0).0 == WIDE_LEAD0_C0;
    assert ColumnStep(WIDE_LEAD0_C0, 1, -2.0).1 == 1.0;
  }

  /** its determinant = 1, as the procedure computes it column by column. */
  lemma DetWide0Value()
    ensures Det(WIDE_LEAD0) == 1.0
  {
    DetWide0Column0();
    DetWide0Column1();
  }

  /** The leading block with column 1 replaced by (1, 2). */
  const WIDE_LEAD1: Matrix := [[1.0, 1.0], [0.0, 2.0]]

  lemma DetWide1Pivot0()
    ensures PivotRow(WIDE_LEAD1, 0, 0) == 0
  {
  }

  lemma DetWide1Placed0()
    ensures !SmallPivot(WIDE_LEAD1, 0) && PivotPlaced(WIDE_LEAD1, 0) == WIDE_LEAD1
  {
    DetWide1Pivot0();
  }

  lemma DetWide1Eliminate0()
    ensures EliminateBelow(WIDE_LEAD1, 0) == WIDE_LEAD1
  {
    var r := EliminateBelow(WIDE_LEAD1, 0);
    assert r[1] == WIDE_LEAD1[1];
  }

  lemma DetWide1Column0()
    ensures DetFrom(WIDE_LEAD1, 0, 1.0) == DetFrom(WIDE_LEAD1, 1, 1.0)
  {
    DetWide1Placed0();
    DetWide1Eliminate0();
    assert ColumnStep(WIDE_LEAD1, 0, 1.0).0 == WIDE_LEAD1;
    assert ColumnStep(WIDE_LEAD1, 0, 1.0).1 == 1.0;
  }

  lemma DetWide1Pivot1()
    ensures PivotRow(WIDE_LEAD1, 1, 1) == 1
  {
  }

  lemma DetWide1Placed1()
    ensures !SmallPivot(WIDE_LEAD1, 1) && PivotPlaced(WIDE_LEAD1, 1) == WIDE_LEAD1
  {
    DetWide1Pivot1();
  }

  lemma DetWide1Eliminate1()
    ensures EliminateBelow(WIDE_LEAD1, 1) == WIDE_LEAD1
  {
  }

  lemma DetWide1Column1()
    ensures DetFrom(WIDE_LEAD1, 1, 1.0) == DetFrom(WIDE_LEAD1, 2, 2.0)
  {
    DetWide1Placed1();
    DetWide1Eliminate1();
    assert ColumnStep(WIDE_LEAD1, 1, 1.0).0 == WIDE_LEAD1;
    assert ColumnStep(WIDE_LEAD1, 1, 1.0).1 == 2.0;
  }

  /** its determinant = 2, as the procedure computes it column by column. */
  lemma DetWide1Value()
    ensures Det(WIDE_LEAD1) == 2.0
  {
    DetWide1Column0();
    DetWide1Column1();
  }

  /** The leading block of WIDE_A, and the two matrices of Cramer's rule on it. */
  lemma WideLeading()
    ensures IsWide(WIDE_A) && Leading(WIDE_A) == WIDE_LEAD
    ensures ReplaceColumn(WIDE_LEAD, WIDE_B, 0) == WIDE_LEAD0
    ensures ReplaceColumn(WIDE_LEAD, WIDE_B, 1) == WIDE_LEAD1
  {
    var l := Leading(WIDE_A);
    assert l[0] == WIDE_LEAD[0] && l[1] == WIDE_LEAD[1];
    var r0, r1 := ReplaceColumn(WIDE_LEAD, WIDE_B, 0), ReplaceColumn(WIDE_LEAD, WIDE_B, 1);
    assert r0[0] == WIDE_LEAD0[0] && r0[1] == WIDE_LEAD0[1];
    assert r1[0] == WIDE_LEAD1[0] && r1[1] == WIDE_LEAD1[1];
  }

  /** x_i = det(A_i) / det(A) on the leading block. */
  lemma WideCramerSolution()
    ensures CramerSolution(WIDE_LEAD, WIDE_B, 1.0) == [1.0, 2.0]
  {
    WideLeading();
    DetWide0Value();
    DetWide1Value();
    var x := CramerSolution(WIDE_LEAD, WIDE_B, 1.0);
    assert x[0] == 1.0 && x[1] == 2.0;
  }

  /** Rows longer than n are accepted: with A = [[1, 0, 5], [0, 1, 7]] and
      b = (1, 2) the answer is (1, 2), from the leading block alone. */
  lemma CramerWideExample()
    ensures CramerResult(Some(WIDE_A), Some(WIDE_B)) == Ok([1.0, 2.0])
  {
    WideLeading();
    DetWideValue();
    WideCramerSolution();
  }
}
