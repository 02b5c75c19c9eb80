/** The row operations both solvers are built from, and the two elimination
    procedures they drive: the pivoted forward elimination that computes a
    determinant, and Gauss-Jordan elimination of an augmented matrix. All of
    them are stated here as functions on matrix values. */
module Elimination {
  import opened Wrappers
  import opened Numeric

  /** Every row from `start` on has an entry in column `col`. */
  predicate HasColumn(m: Matrix, start: nat, col: nat) {
    forall r :: start <= r < |m| ==> col < |m[r]|
  }

  /** The `findPivot` scan, from row `row` on, with the best row so far `pivot`:
      a later row replaces the pivot only when its magnitude is strictly larger. */
  function PivotScan(m: Matrix, start: nat, col: nat, pivot: nat, row: nat): (p: nat)
    requires start <= pivot < row <= |m| && HasColumn(m, start, col)
    requires forall r :: start <= r < row ==> Abs(m[r][col]) <= Abs(m[pivot][col])
    requires forall r :: start <= r < pivot ==> Abs(m[r][col]) < Abs(m[pivot][col])
    ensures start <= p < |m|
    ensures forall r :: start <= r < |m| ==> Abs(m[r][col]) <= Abs(m[p][col])
    ensures forall r :: start <= r < p ==> Abs(m[r][col]) < Abs(m[p][col])
    decreases |m| - row
  {
    if row == |m| then pivot
    else PivotScan(m, start, col, if Abs(m[row][col]) > Abs(m[pivot][col]) then row else pivot, row + 1)
  }

  /** One turn of the scan: the row kept after looking at `row` is again the
      first of largest magnitude so far, and the scan from there ends alike. */
  lemma PivotScanStep(m: Matrix, start: nat, col: nat, pivot: nat, row: nat)
    requires start <= pivot < row < |m| && HasColumn(m, start, col)
    requires forall r :: start <= r < row ==> Abs(m[r][col]) <= Abs(m[pivot][col])
    requires forall r :: start <= r < pivot ==> Abs(m[r][col]) < Abs(m[pivot][col])
    ensures var next := if Abs(m[row][col]) > Abs(m[pivot][col]) then row else pivot;
            (forall r :: start <= r < row + 1 ==> Abs(m[r][col]) <= Abs(m[next][col]))
            && (forall r :: start <= r < next ==> Abs(m[r][col]) < Abs(m[next][col]))
            && PivotScan(m, start, col, pivot, row) == PivotScan(m, start, col, next, row + 1)
  {
  }

  /** `findPivot(m, start, col)`: the first row at or after `start` whose entry in
      column `col` has the largest magnitude. */
  function PivotRow(m: Matrix, start: nat, col: nat): (p: nat)
    requires start < |m| && HasColumn(m, start, col)
    ensures start <= p < |m|
    ensures forall r :: start <= r < |m| ==> Abs(m[r][col]) <= Abs(m[p][col])
    ensures forall r :: start <= r < p ==> Abs(m[r][col]) < Abs(m[p][col])
  {
    PivotScan(m, start, col, start, start + 1)
  }

  /** Being the first row of largest magnitude determines the row. */
  lemma PivotUnique(m: Matrix, start: nat, col: nat, p: nat, q: nat)
    requires start <= p < |m| && start <= q < |m| && HasColumn(m, start, col)
    requires forall r :: start <= r < |m| ==> Abs(m[r][col]) <= Abs(m[p][col]) && Abs(m[r][col]) <= Abs(m[q][col])
    requires forall r :: start <= r < p ==> Abs(m[r][col]) < Abs(m[p][col])
    requires forall r :: start <= r < q ==> Abs(m[r][col]) < Abs(m[q][col])
    ensures p == q
  {
    assert Abs(m[p][col]) <= Abs(m[q][col]) && Abs(m[q][col]) <= Abs(m[p][col]);
  }

  /** `swapRows`: rows i and j trade places and nothing else moves. */
  function SwapRows(m: Matrix, i: nat, j: nat): (r: Matrix)
    requires i < |m| && j < |m|
    ensures |r| == |m| && r[i] == m[j] && r[j] == m[i]
    ensures forall k :: 0 <= k < |m| && k != i && k != j ==> r[k] == m[k]
  {
    m[i := m[j]][j := m[i]]
  }

  /** Swapping a row with itself changes nothing, and swapping twice restores the matrix. */
  lemma SwapRowsInvolution(m: Matrix, i: nat, j: nat)
    requires i < |m| && j < |m|
    ensures SwapRows(m, i, i) == m
    ensures SwapRows(SwapRows(m, i, j), i, j) == m
  {
  }

  /** `normalizeRow`: the row is divided by its pivot entry, which becomes 1;
      the other rows are unchanged. A zero pivot is never normalized by the
      solvers, which reject pivots below EPS first. */
  function NormalizeRow(m: Matrix, row: nat, pc: nat): (r: Matrix)
    requires row < |m| && pc < |m[row]| && m[row][pc] != 0.0
    ensures |r| == |m| && |r[row]| == |m[row]| && r[row][pc] == 1.0
    ensures forall k :: 0 <= k < |m[row]| ==> r[row][k] * m[row][pc] == m[row][k]
    ensures forall k :: 0 <= k < |m| && k != row ==> r[k] == m[k]
  {
    var p := m[row][pc];
    m[row := seq(|m[row]|, k requires 0 <= k < |m[row]| => m[row][k] / p)]
  }

  /** One row minus `factor` times another, entry by entry. */
  function RowMinus(row: Vector, factor: real, pivotRow: Vector): (r: Vector)
    requires |row| == |pivotRow|
    ensures |r| == |row| && forall k :: 0 <= k < |row| ==> r[k] == row[k] - factor * pivotRow[k]
  {
    seq(|row|, k requires 0 <= k < |row| => row[k] - factor * pivotRow[k])
  }

  /** `eliminateColumn`: every row other than the pivot row whose entry in the
      pivot column is at least EPS in magnitude has that entry times the pivot row
      subtracted from it; the rest are left alone. */
  function EliminateColumn(m: Matrix, pr: nat, pc: nat): (r: Matrix)
    requires pr < |m| && IsRect(m, |m[pr]|) && pc < |m[pr]|
    ensures |r| == |m| && IsRect(r, |m[pr]|) && r[pr] == m[pr]
    ensures forall k :: 0 <= k < |m| && Abs(m[k][pc]) < EPS ==> r[k] == m[k]
    ensures forall k :: 0 <= k < |m| && k != pr && Abs(m[k][pc]) >= EPS ==> r[k] == RowMinus(m[k], m[k][pc], m[pr])
  {
    seq(|m|, k requires 0 <= k < |m| =>
      if k == pr || Abs(m[k][pc]) < EPS then m[k] else RowMinus(m[k], m[k][pc], m[pr]))
  }

  /** With a pivot entry of 1, eliminating the column leaves 1 at the pivot and
      in every other row either 0 or what was already below EPS. */
  lemma EliminateColumnClears(m: Matrix, pr: nat, pc: nat)
    requires pr < |m| && IsRect(m, |m[pr]|) && pc < |m[pr]| && m[pr][pc] == 1.0
    ensures EliminateColumn(m, pr, pc)[pr][pc] == 1.0
    ensures forall k :: 0 <= k < |m| && k != pr ==>
              EliminateColumn(m, pr, pc)[k][pc] == 0.0 || EliminateColumn(m, pr, pc)[k][pc] == m[k][pc]
    ensures forall k :: 0 <= k < |m| && k != pr ==> Abs(EliminateColumn(m, pr, pc)[k][pc]) < EPS
  {
  }

  /** The determinant's elimination below row i: the pivot row times
      m[j][i]/m[i][i] is subtracted from each later row, from column i on. */
  function EliminateBelow(m: Matrix, i: nat): (r: Matrix)
    requires IsSquare(m) && i < |m| && m[i][i] != 0.0
    ensures |r| == |m| && IsSquare(r)
    ensures forall j :: 0 <= j <= i ==> r[j] == m[j]
    ensures forall j, k :: i < j < |m| && 0 <= k < i ==> r[j][k] == m[j][k]
    ensures forall j :: i < j < |m| ==> r[j][i] == 0.0
  {
    var n := |m|;
    seq(n, j requires 0 <= j < n =>
      if j <= i then m[j]
      else
        var factor := m[j][i] / m[i][i];
        seq(n, k requires 0 <= k < n => if k < i then m[j][k] else m[j][k] - factor * m[i][k]))
  }

  /** The best pivot for column i is too small to divide by. */
  predicate SmallPivot(m: Matrix, i: nat)
    requires i < |m| && HasColumn(m, i, i)
  {
    Abs(m[PivotRow(m, i, i)][i]) < EPS
  }

  /** The matrix with the best pivot row for column i exchanged into row i. */
  function PivotPlaced(m: Matrix, i: nat): (r: Matrix)
    requires IsSquare(m) && i < |m|
    ensures |r| == |m| && IsSquare(r) && r[i][i] == m[PivotRow(m, i, i)][i]
  {
    var p := PivotRow(m, i, i);
    if p != i then SwapRows(m, i, p) else m
  }

  /** The running product, negated when the pivot row moved. */
  function SignedDet(m: Matrix, i: nat, det: real): real
    requires IsSquare(m) && i < |m|
  {
    if PivotRow(m, i, i) != i then -det else det
  }

  /** One column of the determinant procedure: exchange the pivot row into
      place (negating the running product if it moved), multiply the product
      by the pivot and eliminate below it. */
  function ColumnStep(m: Matrix, i: nat, det: real): (r: (Matrix, real))
    requires IsSquare(m) && i < |m| && !SmallPivot(m, i)
    ensures |r.0| == |m| && IsSquare(r.0)
  {
    var m1 := PivotPlaced(m, i);
    (EliminateBelow(m1, i), SignedDet(m, i, det) * m1[i][i])
  }

  /** The determinant procedure from column i on, with running product `det`:
      it gives 0 as soon as the best pivot is below EPS. */
  function DetFrom(m: Matrix, i: nat, det: real): real
    requires IsSquare(m) && i <= |m|
    decreases |m| - i
  {
    if i == |m| then det
    else if SmallPivot(m, i) then 0.0
    else
      var r := ColumnStep(m, i, det);
      DetFrom(r.0, i + 1, r.1)
  }

  /** `determinant`. */
  function Det(m: Matrix): real
    requires IsSquare(m)
  {
    DetFrom(m, 0, 1.0)
  }

  predicate IsDiagonal(m: Matrix) {
    IsSquare(m) && forall i, j :: 0 <= i < |m| && 0 <= j < |m| && i != j ==> m[i][j] == 0.0
  }

  /** The running product `det` times the diagonal entries from row i on,
      multiplied in row order. */
  function DiagFrom(m: Matrix, i: nat, det: real): real
    requires IsSquare(m) && i <= |m|
    decreases |m| - i
  {
    if i == |m| then det else DiagFrom(m, i + 1, det * m[i][i])
  }

  /** A column that is already zero below row i is left as it is. */
  lemma EliminateBelowZero(m: Matrix, i: nat)
    requires IsSquare(m) && i < |m| && m[i][i] != 0.0
    requires forall j :: i < j < |m| ==> m[j][i] == 0.0
    ensures EliminateBelow(m, i) == m
  {
    var r := EliminateBelow(m, i);
    forall j | 0 <= j < |m| ensures r[j] == m[j] {
      if j > i {
        assert m[j][i] / m[i][i] == 0.0;
        assert forall k :: 0 <= k < |m| ==> r[j][k] == m[j][k];
      }
    }
  }

  /** On a diagonal matrix a column step keeps the pivot in place, changes
      nothing and multiplies in the diagonal entry. */
  lemma DiagonalColumnStep(m: Matrix, i: nat, det: real)
    requires IsDiagonal(m) && i < |m| && Abs(m[i][i]) >= EPS
    ensures !SmallPivot(m, i) && ColumnStep(m, i, det) == (m, det * m[i][i])
  {
    var p := PivotRow(m, i, i);
    assert Abs(m[i][i]) <= Abs(m[p][i]);
    assert p == i;
    assert !SmallPivot(m, i);
    EliminateBelowZero(m, i);
    var r := ColumnStep(m, i, det);
    assert r.0 == EliminateBelow(m, i) == m;
    assert r.1 == det * m[i][i];
  }

  /** On a diagonal matrix whose diagonal entries are nowhere below EPS, the
      procedure multiplies the diagonal entries into the running product. */
  lemma {:induction false} DetFromDiagonal(m: Matrix, i: nat, det: real)
    requires IsDiagonal(m) && i <= |m|
    requires forall k :: 0 <= k < |m| ==> Abs(m[k][k]) >= EPS
    ensures DetFrom(m, i, det) == DiagFrom(m, i, det)
    decreases |m| - i
  {
    if i < |m| {
      DiagonalColumnStep(m, i, det);
      DetFromDiagonal(m, i + 1, det * m[i][i]);
    }
  }

  /** For a diagonal matrix whose entries are all at least EPS in magnitude,
      the determinant is the product of the diagonal. */
  lemma DetDiagonal(m: Matrix)
    requires IsDiagonal(m)
    requires forall k :: 0 <= k < |m| ==> Abs(m[k][k]) >= EPS
    ensures Det(m) == DiagFrom(m, 0, 1.0)
  {
    DetFromDiagonal(m, 0, 1.0);
  }

  /** If no entry of the first column reaches EPS the determinant is 0. */
  lemma DetSmallFirstColumn(m: Matrix)
    requires IsSquare(m) && |m| > 0
    requires forall r :: 0 <= r < |m| ==> Abs(m[r][0]) < EPS
    ensures Det(m) == 0.0
  {
    assert SmallPivot(m, 0);
  }

  /** The last column: the pivot can only be the last row. */
  lemma DetFromLast(m: Matrix, det: real)
    requires IsSquare(m) && |m| > 0
    ensures DetFrom(m, |m| - 1, det) == if Abs(m[|m| - 1][|m| - 1]) < EPS then 0.0 else det * m[|m| - 1][|m| - 1]
  {
    var i := |m| - 1;
    assert PivotRow(m, i, i) == i;
  }

  /** The first column step of a 2×2 matrix leaves a product whose value
      times the remaining pivot is ad − bc, whichever row was the pivot. */
  lemma TwoByTwoColumnStep(m: Matrix)
    requires IsSquare(m) && |m| == 2 && !SmallPivot(m, 0)
    ensures var r := ColumnStep(m, 0, 1.0);
            r.1 * r.0[1][1] == m[0][0] * m[1][1] - m[0][1] * m[1][0]
  {
    if PivotRow(m, 0, 0) == 0 {
      TwoByTwoInPlace(m);
    } else {
      TwoByTwoExchanged(m);
    }
  }

  /** The first row is the pivot: the product is a, and d − (c/a)·b remains. */
  lemma TwoByTwoInPlace(m: Matrix)
    requires IsSquare(m) && |m| == 2 && !SmallPivot(m, 0) && PivotRow(m, 0, 0) == 0
    ensures var r := ColumnStep(m, 0, 1.0);
            r.1 * r.0[1][1] == m[0][0] * m[1][1] - m[0][1] * m[1][0]
  {
    var r := ColumnStep(m, 0, 1.0);
    InPlaceEntries(m);
    CrossTerm(m[0][0], m[0][1], m[1][0], m[1][1], r.1, r.0[1][1]);
  }

  lemma InPlaceEntries(m: Matrix)
    requires IsSquare(m) && |m| == 2 && !SmallPivot(m, 0) && PivotRow(m, 0, 0) == 0
    ensures var r := ColumnStep(m, 0, 1.0);
            m[0][0] != 0.0 && r.1 == 1.0 * m[0][0] && r.0[1][1] == m[1][1] - m[1][0] / m[0][0] * m[0][1]
  {
  }

  /** The second row is the pivot: the rows are exchanged, the product is −c,
      and b − (a/c)·d remains. */
  lemma TwoByTwoExchanged(m: Matrix)
    requires IsSquare(m) && |m| == 2 && !SmallPivot(m, 0) && PivotRow(m, 0, 0) != 0
    ensures var r := ColumnStep(m, 0, 1.0);
            r.1 * r.0[1][1] == m[0][0] * m[1][1] - m[0][1] * m[1][0]
  {
    var r := ColumnStep(m, 0, 1.0);
    ExchangedEntries(m);
    CrossTerm(m[0][0], m[0][1], m[1][0], m[1][1], r.1, r.0[1][1]);
  }

  lemma ExchangedEntries(m: Matrix)
    requires IsSquare(m) && |m| == 2 && !SmallPivot(m, 0) && PivotRow(m, 0, 0) != 0
    ensures var r := ColumnStep(m, 0, 1.0);
            m[1][0] != 0.0 && r.1 == -1.0 * m[1][0] && r.0[1][1] == m[0][1] - m[0][0] / m[1][0] * m[1][1]
  {
    var m1 := SwapRows(m, 0, 1);
    assert m1[0] == m[1] && m1[1] == m[0];
  }

  /** Eliminating below the pivot of [[a, b], [c, d]], with the rows in place
      or exchanged, leaves the signed pivot times the new entry equal to
      ad − bc. */
  lemma CrossTerm(a: real, b: real, c: real, d: real, x: real, y: real)
    requires (a != 0.0 && x == 1.0 * a && y == d - c / a * b) || (c != 0.0 && x == -1.0 * c && y == b - a / c * d)
    ensures x * y == a * d - b * c
  {
    if a != 0.0 && x == 1.0 * a && y == d - c / a * b {
      assert a * (c / a) == c;
    } else {
      assert c * (a / c) == a;
    }
  }

  /** On a 2×2 matrix the procedure gives ad − bc, with or without a row
      exchange, unless a pivot falls below EPS. */
  lemma DetTwoByTwo(m: Matrix)
    requires IsSquare(m) && |m| == 2 && !SmallPivot(m, 0)
    ensures var m2 := ColumnStep(m, 0, 1.0).0;
            Det(m) == if Abs(m2[1][1]) < EPS then 0.0 else m[0][0] * m[1][1] - m[0][1] * m[1][0]
  {
    DetAfterFirstColumn(m);
    TwoByTwoColumnStep(m);
  }

  /** On a 2×2 matrix the procedure ends with the second pivot. */
  lemma DetAfterFirstColumn(m: Matrix)
    requires IsSquare(m) && |m| == 2 && !SmallPivot(m, 0)
    ensures var r := ColumnStep(m, 0, 1.0);
            Det(m) == if Abs(r.0[1][1]) < EPS then 0.0 else r.1 * r.0[1][1]
  {
    var r := ColumnStep(m, 0, 1.0);
    var m1, d := r.0, r.1;
    DetFromFirst(m);
    assert |m1| - 1 == 1;
    DetFromLast(m1, d);
    assert Det(m) == DetFrom(m1, 1, d);
  }

  lemma DetFromFirst(m: Matrix)
    requires IsSquare(m) && |m| > 0 && !SmallPivot(m, 0)
    ensures var r := ColumnStep(m, 0, 1.0);
            Det(m) == DetFrom(r.0, 1, r.1)
  {
  }

  /** `replaceColumn`: a copy of A with column `col` replaced by b. */
  function ReplaceColumn(a: Matrix, b: Vector, col: nat): (r: Matrix)
    requires IsSquare(a) && |b| == |a| && col < |a|
    ensures |r| == |a| && IsSquare(r)
    ensures forall i :: 0 <= i < |a| ==> r[i][col] == b[i]
    ensures forall i, j :: 0 <= i < |a| && 0 <= j < |a| && j != col ==> r[i][j] == a[i][j]
  {
    seq(|a|, i requires 0 <= i < |a| => a[i][col := b[i]])
  }

  /** Cramer's rule: x_i = det(A with column i replaced by b) / det(A). */
  function CramerSolution(a: Matrix, b: Vector, detA: real): (x: Vector)
    requires IsSquare(a) && |b| == |a| && detA != 0.0
    ensures |x| == |a| && forall i :: 0 <= i < |a| ==> x[i] == Det(ReplaceColumn(a, b, i)) / detA
  {
    seq(|a|, i requires 0 <= i < |a| => Det(ReplaceColumn(a, b, i)) / detA)
  }

  /** An augmented n×(n+1) matrix. */
  predicate IsAugmented(m: Matrix, n: nat) {
    |m| == n && IsRect(m, n + 1)
  }

  /** `buildAugmentedMatrix`: each row of A followed by the matching entry of b. */
  function Augmented(a: Matrix, b: Vector): (m: Matrix)
    requires IsSquare(a) && |b| >= |a|
    ensures IsAugmented(m, |a|)
    ensures forall i, j :: 0 <= i < |a| && 0 <= j < |a| ==> m[i][j] == a[i][j]
    ensures forall i :: 0 <= i < |a| ==> m[i][|a|] == b[i]
  {
    seq(|a|, i requires 0 <= i < |a| => a[i] + [b[i]])
  }

  /** `extractSolution`: the last column of the augmented matrix. */
  function LastColumn(m: Matrix, n: nat): (x: Vector)
    requires IsAugmented(m, n)
    ensures |x| == n && forall i :: 0 <= i < n ==> x[i] == m[i][n]
  {
    seq(n, i requires 0 <= i < n => m[i][n])
  }

  /** One Gauss-Jordan column step: pick the pivot, reject it below EPS, then
      swap it into place, normalize its row and clear the column. */
  function GaussJordanStep(m: Matrix, n: nat, col: nat): (r: Result<Matrix>)
    requires IsAugmented(m, n) && col < n
    ensures r.Ok? ==> IsAugmented(r.value, n)
    ensures r.Err? <==> Abs(m[PivotRow(m, col, col)][col]) < EPS
    ensures r.Err? ==> r.error == Singular
    ensures r.Ok? ==> r.value[col][col] == 1.0
                      && forall k :: 0 <= k < n && k != col ==> Abs(r.value[k][col]) < EPS
  {
    var p := PivotRow(m, col, col);
    if Abs(m[p][col]) < EPS then Err(Singular)
    else
      var m1 := SwapRows(m, p, col);
      var m2 := NormalizeRow(m1, col, col);
      EliminateColumnClears(m2, col, col);
      Ok(EliminateColumn(m2, col, col))
  }

  /** The Gauss-Jordan column loop from `col` on. */
  function GaussJordanFrom(m: Matrix, n: nat, col: nat): (r: Result<Matrix>)
    requires IsAugmented(m, n) && col <= n
    ensures r.Ok? ==> IsAugmented(r.value, n)
    ensures r.Err? ==> r.error == Singular
    decreases n - col
  {
    if col == n then Ok(m)
    else
      match GaussJordanStep(m, n, col)
      case Err(e) => Err(e)
      case Ok(m1) => GaussJordanFrom(m1, n, col + 1)
  }

  /** x solves every equation of an augmented system. */
  predicate Solves(m: Matrix, n: nat, x: Vector)
    requires IsAugmented(m, n) && |x| == n
  {
    forall i :: 0 <= i < n ==> DotPrefix(m[i], x, n) == m[i][n]
  }

  lemma {:induction false} DotScaled(row: Vector, p: real, x: Vector, k: nat)
    requires k <= |row| && k <= |x| && p != 0.0
    ensures DotPrefix(seq(|row|, c requires 0 <= c < |row| => row[c] / p), x, k) == DotPrefix(row, x, k) / p
  {
    if k > 0 {
      DotScaled(row, p, x, k - 1);
    }
  }

  lemma {:induction false} DotRowMinus(row: Vector, f: real, pivotRow: Vector, x: Vector, k: nat)
    requires |row| == |pivotRow| && k <= |row| && k <= |x|
    ensures DotPrefix(RowMinus(row, f, pivotRow), x, k) == DotPrefix(row, x, k) - f * DotPrefix(pivotRow, x, k)
  {
    if k > 0 {
      DotRowMinus(row, f, pivotRow, x, k - 1);
    }
  }

  /** Exchanging two equations keeps the solutions. */
  lemma SwapKeepsSolutions(m: Matrix, n: nat, i: nat, j: nat, x: Vector)
    requires IsAugmented(m, n) && i < n && j < n && |x| == n
    ensures IsAugmented(SwapRows(m, i, j), n)
    ensures Solves(SwapRows(m, i, j), n, x) <==> Solves(m, n, x)
  {
    var r := SwapRows(m, i, j);
    if Solves(m, n, x) {
      forall k | 0 <= k < n ensures DotPrefix(r[k], x, n) == r[k][n] {
        if k == i { assert r[k] == m[j]; } else if k == j { assert r[k] == m[i]; } else { assert r[k] == m[k]; }
      }
    }
    if Solves(r, n, x) {
      forall k | 0 <= k < n ensures DotPrefix(m[k], x, n) == m[k][n] {
        if k == i { assert m[k] == r[j]; } else if k == j { assert m[k] == r[i]; } else { assert m[k] == r[k]; }
      }
    }
  }

  /** Dividing an equation by a non-zero pivot keeps the solutions. */
  lemma NormalizeKeepsSolutions(m: Matrix, n: nat, row: nat, x: Vector)
    requires IsAugmented(m, n) && row < n && |x| == n && m[row][row] != 0.0
    ensures IsAugmented(NormalizeRow(m, row, row), n)
    ensures Solves(NormalizeRow(m, row, row), n, x) <==> Solves(m, n, x)
  {
    var p := m[row][row];
    var r := NormalizeRow(m, row, row);
    assert r[row] == seq(|m[row]|, c requires 0 <= c < |m[row]| => m[row][c] / p);
    DotScaled(m[row], p, x, n);
    assert r[row][n] == m[row][n] / p;
    assert DotPrefix(r[row], x, n) == r[row][n] <==> DotPrefix(m[row], x, n) == m[row][n];
    if Solves(m, n, x) {
      forall k | 0 <= k < n ensures DotPrefix(r[k], x, n) == r[k][n] {
        if k != row { assert r[k] == m[k]; }
      }
    }
    if Solves(r, n, x) {
      forall k | 0 <= k < n ensures DotPrefix(m[k], x, n) == m[k][n] {
        if k != row { assert r[k] == m[k]; }
      }
    }
  }

  /** For a vector that satisfies the pivot equation, each row of the
      eliminated system holds exactly when the original row does. */
  lemma EliminatedRowHolds(m: Matrix, n: nat, pr: nat, x: Vector, k: nat)
    requires IsAugmented(m, n) && pr < n && |x| == n && k < n
    requires DotPrefix(m[pr], x, n) == m[pr][n]
    ensures var r := EliminateColumn(m, pr, pr);
            DotPrefix(r[k], x, n) == r[k][n] <==> DotPrefix(m[k], x, n) == m[k][n]
  {
    var r := EliminateColumn(m, pr, pr);
    if k != pr && Abs(m[k][pr]) >= EPS {
      assert r[k] == RowMinus(m[k], m[k][pr], m[pr]);
      RowMinusHolds(m[k], m[k][pr], m[pr], x, n);
    } else {
      assert r[k] == m[k];
    }
  }

  /** Subtracting a multiple of an equation that x satisfies from another
      does not change whether x satisfies the other. */
  lemma RowMinusHolds(row: Vector, f: real, pivotRow: Vector, x: Vector, n: nat)
    requires |row| == |pivotRow| == n + 1 && |x| == n
    requires DotPrefix(pivotRow, x, n) == pivotRow[n]
    ensures DotPrefix(RowMinus(row, f, pivotRow), x, n) == RowMinus(row, f, pivotRow)[n] <==> DotPrefix(row, x, n) == row[n]
  {
    DotRowMinus(row, f, pivotRow, x, n);
  }

  /** Subtracting multiples of the pivot equation from the others keeps the solutions. */
  lemma EliminateKeepsSolutions(m: Matrix, n: nat, pr: nat, x: Vector)
    requires IsAugmented(m, n) && pr < n && |x| == n
    ensures IsAugmented(EliminateColumn(m, pr, pr), n)
    ensures Solves(EliminateColumn(m, pr, pr), n, x) <==> Solves(m, n, x)
  {
    var r := EliminateColumn(m, pr, pr);
    assert r[pr] == m[pr];
    if Solves(m, n, x) || Solves(r, n, x) {
      assert DotPrefix(m[pr], x, n) == m[pr][n];
      forall k | 0 <= k < n
        ensures DotPrefix(r[k], x, n) == r[k][n] <==> DotPrefix(m[k], x, n) == m[k][n]
      {
        EliminatedRowHolds(m, n, pr, x, k);
      }
    }
  }

  /** A Gauss-Jordan step never changes which vectors solve the system. */
  lemma StepKeepsSolutions(m: Matrix, n: nat, col: nat, x: Vector)
    requires IsAugmented(m, n) && col < n && |x| == n && GaussJordanStep(m, n, col).Ok?
    ensures Solves(GaussJordanStep(m, n, col).value, n, x) <==> Solves(m, n, x)
  {
    var p := PivotRow(m, col, col);
    var m1 := SwapRows(m, p, col);
    SwapKeepsSolutions(m, n, p, col, x);
    var m2 := NormalizeRow(m1, col, col);
    NormalizeKeepsSolutions(m1, n, col, x);
    EliminateKeepsSolutions(m2, n, col, x);
  }

  /** The whole elimination keeps the solution set of the original system. */
  lemma {:induction false} GaussJordanKeepsSolutions(m: Matrix, n: nat, col: nat, x: Vector)
    requires IsAugmented(m, n) && col <= n && |x| == n && GaussJordanFrom(m, n, col).Ok?
    ensures Solves(GaussJordanFrom(m, n, col).value, n, x) <==> Solves(m, n, x)
    decreases n - col
  {
    if col < n {
      GaussJordanFromOk(m, n, col);
      GaussJordanKeepsSolutions(GaussJordanStep(m, n, col).value, n, col + 1, x);
      KeepsSolutionsFromStep(m, n, col, x);
    }
  }

  /** If the loop from the next column keeps the solutions, so does the loop
      from this one. */
  lemma KeepsSolutionsFromStep(m: Matrix, n: nat, col: nat, x: Vector)
    requires IsAugmented(m, n) && col < n && |x| == n
    requires GaussJordanStep(m, n, col).Ok?
    requires var m1 := GaussJordanStep(m, n, col).value;
             GaussJordanFrom(m1, n, col + 1).Ok?
             && (Solves(GaussJordanFrom(m1, n, col + 1).value, n, x) <==> Solves(m1, n, x))
    ensures GaussJordanFrom(m, n, col).Ok?
    ensures Solves(GaussJordanFrom(m, n, col).value, n, x) <==> Solves(m, n, x)
  {
    StepKeepsSolutions(m, n, col, x);
  }

  /** A column loop that succeeds took a step that succeeded and went on
      from the next column. */
  lemma GaussJordanFromOk(m: Matrix, n: nat, col: nat)
    requires IsAugmented(m, n) && col < n && GaussJordanFrom(m, n, col).Ok?
    ensures GaussJordanStep(m, n, col).Ok?
    ensures GaussJordanFrom(m, n, col) == GaussJordanFrom(GaussJordanStep(m, n, col).value, n, col + 1)
  {
  }

  /** One turn of the column loop: a failing step ends it, and a step that
      succeeds goes on from the next column. */
  lemma GaussJordanFromStep(m: Matrix, n: nat, col: nat)
    requires IsAugmented(m, n) && col < n
    ensures GaussJordanStep(m, n, col).Err? ==> GaussJordanFrom(m, n, col) == Err(Singular)
    ensures GaussJordanStep(m, n, col).Ok? ==>
              GaussJordanFrom(m, n, col) == GaussJordanFrom(GaussJordanStep(m, n, col).value, n, col + 1)
  {
  }
}
