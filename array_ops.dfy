/** The solvers' in-place work on two-dimensional arrays: copying a matrix in
    and out, the pivot scan, the three row operations, the determinant's
    elimination below a pivot and the determinant itself. Each method is
    proved to compute the matching function of the Elimination module. */
module ArrayOps {
  import opened Numeric
  import opened Elimination

  /** Two arrays' matrices are equal when their entries are. */
  lemma ArrayMatrixEquals(a: array2<real>, m: Matrix)
    requires |m| == a.Length0 && IsRect(m, a.Length1)
    requires forall i, j :: 0 <= i < a.Length0 && 0 <= j < a.Length1 ==> a[i, j] == m[i][j]
    ensures ArrayMatrix(a) == m
  {
    var am := ArrayMatrix(a);
    forall i | 0 <= i < |m| ensures am[i] == m[i] {
      assert forall j :: 0 <= j < a.Length1 ==> am[i][j] == m[i][j];
    }
  }

  /** `deepCopy` into a fresh n×n array. */
  method CopyToArray(m: Matrix) returns (a: array2<real>)
    requires IsSquare(m)
    ensures fresh(a) && a.Length0 == |m| && a.Length1 == |m| && ArrayMatrix(a) == m
  {
    var n := |m|;
    a := new real[n, n];
    var i := 0;
    while i < n
      invariant 0 <= i <= n
      invariant forall p, q :: 0 <= p < i && 0 <= q < n ==> a[p, q] == m[p][q]
    {
      var j := 0;
      while j < n
        invariant 0 <= j <= n
        invariant forall p, q :: 0 <= p < i && 0 <= q < n ==> a[p, q] == m[p][q]
        invariant forall q :: 0 <= q < j ==> a[i, q] == m[i][q]
      {
        a[i, j] := m[i][j];
        j := j + 1;
      }
      i := i + 1;
    }
    ArrayMatrixEquals(a, m);
  }

  /** A copy of an array's contents as a matrix value. */
  method MatrixOf(a: array2<real>) returns (m: Matrix)
    ensures m == ArrayMatrix(a)
  {
    m := [];
    var i := 0;
    while i < a.Length0
      invariant 0 <= i <= a.Length0
      invariant |m| == i && forall p :: 0 <= p < i ==> m[p] == ArrayMatrix(a)[p]
    {
      var row := [];
      var j := 0;
      while j < a.Length1
        invariant 0 <= j <= a.Length1
        invariant |row| == j && forall q :: 0 <= q < j ==> row[q] == a[i, q]
      {
        row := row + [a[i, j]];
        j := j + 1;
      }
      m := m + [row];
      i := i + 1;
    }
  }

  /** `findPivot`: the scan keeps the first row of strictly largest magnitude. */
  method FindPivot(a: array2<real>, start: nat, col: nat) returns (p: nat)
    requires start < a.Length0 && col < a.Length1
    ensures p == PivotRow(ArrayMatrix(a), start, col)
  {
    ghost var m := ArrayMatrix(a);
    p := start;
    var row := start + 1;
    while row < a.Length0
      invariant start <= p < row <= a.Length0
      invariant forall r :: start <= r < row ==> Abs(m[r][col]) <= Abs(m[p][col])
      invariant forall r :: start <= r < p ==> Abs(m[r][col]) < Abs(m[p][col])
      invariant PivotScan(m, start, col, p, row) == PivotRow(m, start, col)
    {
      assert a[row, col] == m[row][col] && a[p, col] == m[p][col];
      PivotScanStep(m, start, col, p, row);
      if Abs(a[row, col]) > Abs(a[p, col]) {
        p := row;
      }
      row := row + 1;
    }
  }

  /** `swapRows`: nothing happens when i = j; otherwise the two rows trade
      contents. */
  method SwapRowsInPlace(a: array2<real>, i: nat, j: nat)
    requires i < a.Length0 && j < a.Length0
    modifies a
    ensures ArrayMatrix(a) == SwapRows(old(ArrayMatrix(a)), i, j)
  {
    ghost var m := ArrayMatrix(a);
    if i == j {
      assert SwapRows(m, i, j) == m;
      return;
    }
    var k := 0;
    while k < a.Length1
      invariant 0 <= k <= a.Length1
      invariant forall r, c :: 0 <= r < a.Length0 && 0 <= c < a.Length1 ==>
                  a[r, c] == if c < k && r == i then m[j][c] else if c < k && r == j then m[i][c] else m[r][c]
    {
      var tmp := a[i, k];
      a[i, k] := a[j, k];
      a[j, k] := tmp;
      k := k + 1;
    }
    ArrayMatrixEquals(a, SwapRows(m, i, j));
  }

  /** `normalizeRow`: the pivot value is read once and the row divided by it. */
  method NormalizeRowInPlace(a: array2<real>, row: nat, pc: nat)
    requires row < a.Length0 && pc < a.Length1 && a[row, pc] != 0.0
    modifies a
    ensures ArrayMatrix(a) == NormalizeRow(old(ArrayMatrix(a)), row, pc)
  {
    ghost var m := ArrayMatrix(a);
    var pivot := a[row, pc];
    var col := 0;
    while col < a.Length1
      invariant 0 <= col <= a.Length1
      invariant forall r, c :: 0 <= r < a.Length0 && 0 <= c < a.Length1 ==>
                  a[r, c] == if r == row && c < col then m[r][c] / pivot else m[r][c]
    {
      a[row, col] := a[row, col] / pivot;
      col := col + 1;
    }
    ArrayMatrixEquals(a, NormalizeRow(m, row, pc));
  }

  /** `eliminateColumn`: the rows other than the pivot row whose factor is at
      least EPS have the factor times the pivot row subtracted. */
  method EliminateColumnInPlace(a: array2<real>, pr: nat, pc: nat)
    requires pr < a.Length0 && pc < a.Length1
    modifies a
    ensures ArrayMatrix(a) == EliminateColumn(old(ArrayMatrix(a)), pr, pc)
  {
    ghost var m := ArrayMatrix(a);
    ghost var target := EliminateColumn(m, pr, pc);
    var row := 0;
    while row < a.Length0
      invariant 0 <= row <= a.Length0
      invariant forall r, c :: 0 <= r < a.Length0 && 0 <= c < a.Length1 ==>
                  a[r, c] == if r < row then target[r][c] else m[r][c]
    {
      if row != pr {
        var factor := a[row, pc];
        if Abs(factor) >= EPS {
          var col := 0;
          while col < a.Length1
            invariant 0 <= col <= a.Length1
            invariant forall r, c :: 0 <= r < a.Length0 && 0 <= c < a.Length1 ==>
                        a[r, c] == if r < row || (r == row && c < col) then target[r][c] else m[r][c]
          {
            a[row, col] := a[row, col] - factor * a[pr, col];
            col := col + 1;
          }
        }
      }
      row := row + 1;
    }
    ArrayMatrixEquals(a, target);
  }

  /** The determinant's inner loops: for each later row the factor is read
      once, then the pivot row times the factor is subtracted from column i on. */
  method EliminateBelowInPlace(a: array2<real>, i: nat)
    requires a.Length0 == a.Length1 && i < a.Length0 && a[i, i] != 0.0
    modifies a
    ensures ArrayMatrix(a) == EliminateBelow(old(ArrayMatrix(a)), i)
  {
    ghost var m := ArrayMatrix(a);
    ghost var target := EliminateBelow(m, i);
    var n := a.Length0;
    var pivotValue := a[i, i];
    var j := i + 1;
    while j < n
      invariant i + 1 <= j <= n
      invariant forall r, c :: 0 <= r < n && 0 <= c < n ==> a[r, c] == if r < j then target[r][c] else m[r][c]
    {
      var factor := a[j, i] / pivotValue;
      SubtractScaledRow(a, i, j, factor);
      j := j + 1;
    }
    ArrayMatrixEquals(a, target);
  }

  /** Row j loses `factor` times row i, from column i on. */
  method SubtractScaledRow(a: array2<real>, i: nat, j: nat, factor: real)
    requires a.Length0 == a.Length1 && i < j < a.Length0
    modifies a
    ensures forall r, c :: 0 <= r < a.Length0 && 0 <= c < a.Length1 ==>
              a[r, c] == if r == j && c >= i then old(a[r, c]) - factor * old(a[i, c]) else old(a[r, c])
  {
    var k := i;
    while k < a.Length1
      invariant i <= k <= a.Length1
      invariant forall r, c :: 0 <= r < a.Length0 && 0 <= c < a.Length1 ==>
                  a[r, c] == if r == j && i <= c < k then old(a[r, c]) - factor * old(a[i, c]) else old(a[r, c])
    {
      a[j, k] := a[j, k] - factor * a[i, k];
      k := k + 1;
    }
  }

  /** One column of `determinant` on the working copy: it reports a pivot
      below EPS, or exchanges the pivot row into place (negating the product if
      it moved), multiplies in the pivot and eliminates below it. */
  method DeterminantColumn(m: array2<real>, i: nat, det: real) returns (small: bool, det': real)
    requires m.Length0 == m.Length1 && i < m.Length0
    modifies m
    ensures small == SmallPivot(old(ArrayMatrix(m)), i)
    ensures !small ==> (ArrayMatrix(m), det') == ColumnStep(old(ArrayMatrix(m)), i, det)
  {
    ghost var before := ArrayMatrix(m);
    var pivot := FindPivot(m, i, i);
    small := Abs(m[pivot, i]) < EPS;
    assert small == SmallPivot(before, i) by {
      assert m[pivot, i] == before[pivot][i];
    }
    if small {
      return small, det;
    }
    det' := ApplyColumnStep(m, i, pivot, det);
  }

  /** The column step once the pivot is known to be large enough. */
  method ApplyColumnStep(m: array2<real>, i: nat, pivot: nat, det: real) returns (det': real)
    requires m.Length0 == m.Length1 && i < m.Length0
    requires pivot == PivotRow(ArrayMatrix(m), i, i) && !SmallPivot(ArrayMatrix(m), i)
    modifies m
    ensures ArrayMatrix(m) == ColumnStep(old(ArrayMatrix(m)), i, det).0
    ensures det' == ColumnStep(old(ArrayMatrix(m)), i, det).1
  {
    ghost var before := ArrayMatrix(m);
    ColumnStepParts(before, i, det);
    det' := PlacePivot(m, i, pivot, det);
    det' := EliminateFromPivot(m, i, det', PivotPlaced(before, i), SignedDet(before, i, det));
  }

  /** Multiplies the pivot into the running product and eliminates below it. */
  method EliminateFromPivot(m: array2<real>, i: nat, det: real, ghost placed: Matrix, ghost signed: real)
    returns (det': real)
    requires m.Length0 == m.Length1 && i < m.Length0 && ArrayMatrix(m) == placed && det == signed
    requires Abs(placed[i][i]) >= EPS
    modifies m
    ensures ArrayMatrix(m) == EliminateBelow(placed, i)
    ensures det' == signed * placed[i][i]
  {
    var pivotValue := m[i, i];
    assert pivotValue == placed[i][i];
    det' := det * pivotValue;
    EliminateBelowInPlace(m, i);
  }

  /** Exchanges the pivot row into row i, negating the running product when
      it moves. */
  method PlacePivot(m: array2<real>, i: nat, pivot: nat, det: real) returns (det': real)
    requires m.Length0 == m.Length1 && i < m.Length0 && pivot == PivotRow(ArrayMatrix(m), i, i)
    modifies m
    ensures ArrayMatrix(m) == PivotPlaced(old(ArrayMatrix(m)), i)
    ensures det' == SignedDet(old(ArrayMatrix(m)), i, det)
  {
    det' := det;
    if pivot != i {
      SwapRowsInPlace(m, i, pivot);
      det' := det' * -1.0;
    }
  }

  /** A column step: elimination below the placed pivot, and the signed
      product times the pivot. */
  lemma ColumnStepParts(m: Matrix, i: nat, det: real)
    requires IsSquare(m) && i < |m| && !SmallPivot(m, i)
    ensures ColumnStep(m, i, det).0 == EliminateBelow(PivotPlaced(m, i), i)
    ensures ColumnStep(m, i, det).1 == SignedDet(m, i, det) * PivotPlaced(m, i)[i][i]
  {
  }

  /** `determinant`: it works on a fresh copy, so its argument is not modified
      (the method has no modifies clause). */
  method Determinant(matrix: array2<real>) returns (det: real)
    requires matrix.Length0 == matrix.Length1
    ensures det == Det(ArrayMatrix(matrix))
  {
    var n := matrix.Length0;
    var mv := MatrixOf(matrix);
    var m := CopyToArray(mv);
    det := 1.0;
    var i := 0;
    while i < n
      invariant 0 <= i <= n && m.Length0 == n && m.Length1 == n
      invariant DetFrom(ArrayMatrix(m), i, det) == Det(mv)
    {
      var small;
      small, det := DeterminantColumn(m, i, det);
      if small {
        return 0.0;
      }
      i := i + 1;
    }
  }

  /** `replaceColumn`: a fresh copy of A whose column `col` is b. */
  method ReplaceColumnCopy(a: Matrix, b: Vector, col: nat) returns (c: array2<real>)
    requires IsSquare(a) && |b| == |a| && col < |a|
    ensures fresh(c) && c.Length0 == |a| && c.Length1 == |a| && ArrayMatrix(c) == ReplaceColumn(a, b, col)
  {
    c := CopyToArray(a);
    ghost var m := ArrayMatrix(c);
    var row := 0;
    while row < |a|
      invariant 0 <= row <= |a|
      invariant forall r, k :: 0 <= r < |a| && 0 <= k < |a| ==>
                  c[r, k] == if k == col && r < row then b[r] else a[r][k]
    {
      c[row, col] := b[row];
      row := row + 1;
    }
    ArrayMatrixEquals(c, ReplaceColumn(a, b, col));
  }

  /** One column of Gauss-Jordan elimination on the augmented array: the pivot
      is chosen, rejected when below EPS, swapped into place, normalized, and
      the column is cleared in the other rows. */
  method GaussJordanColumn(aug: array2<real>, n: nat, col: nat) returns (ok: bool)
    requires aug.Length0 == n && aug.Length1 == n + 1 && col < n
    modifies aug
    ensures ok <==> GaussJordanStep(old(ArrayMatrix(aug)), n, col).Ok?
    ensures ok ==> ArrayMatrix(aug) == GaussJordanStep(old(ArrayMatrix(aug)), n, col).value
    ensures !ok ==> ArrayMatrix(aug) == old(ArrayMatrix(aug))
  {
    ghost var m := ArrayMatrix(aug);
    var pivotRow := FindPivot(aug, col, col);
    if Abs(aug[pivotRow, col]) < EPS {
      return false;
    }
    SwapRowsInPlace(aug, pivotRow, col);
    ghost var m1 := SwapRows(m, pivotRow, col);
    assert aug[col, col] == m1[col][col];
    NormalizeRowInPlace(aug, col, col);
    EliminateColumnInPlace(aug, col, col);
    ok := true;
  }

  /** `extractSolution`: the last column of the augmented array. */
  method LastColumnOf(aug: array2<real>, n: nat) returns (x: seq<real>)
    requires aug.Length0 == n && aug.Length1 == n + 1
    ensures x == LastColumn(ArrayMatrix(aug), n)
  {
    x := [];
    var i := 0;
    while i < n
      invariant 0 <= i <= n && |x| == i
      invariant forall k :: 0 <= k < i ==> x[k] == aug[k, n]
    {
      x := x + [aug[i, n]];
      i := i + 1;
    }
  }
}
