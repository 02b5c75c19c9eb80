/** Real-valued vectors and matrices, sums, and the pivot tolerance shared by
    the solvers. Doubles are modelled as mathematical reals. */
module Numeric {

  type Vector = seq<real>
  type Matrix = seq<seq<real>>

  /** The pivot and determinant tolerance, 1e-12. */
  const EPS: real := 1.0 / 1000000000000.0

  function Abs(x: real): (r: real)
    ensures r >= 0.0 && (r == x || r == -x)
  {
    if x < 0.0 then -x else x
  }

  /** Every row has `cols` entries. */
  predicate IsRect(m: Matrix, cols: nat) {
    forall i :: 0 <= i < |m| ==> |m[i]| == cols
  }

  /** An n×n matrix. */
  predicate IsSquare(m: Matrix) { IsRect(m, |m|) }

  /** n rows, each at least n entries long. */
  predicate IsWide(m: Matrix) {
    forall i :: 0 <= i < |m| ==> |m[i]| >= |m|
  }

  /** The leading n×n block of n rows that are each at least n long: what a
      loop bounded by `matrix.length` in both indices reads. */
  function Leading(m: Matrix): (r: Matrix)
    requires IsWide(m)
    ensures |r| == |m| && IsSquare(r)
    ensures forall i, j :: 0 <= i < |m| && 0 <= j < |m| ==> r[i][j] == m[i][j]
  {
    seq(|m|, i requires 0 <= i < |m| => m[i][..|m|])
  }

  /** A square matrix is its own leading block. */
  lemma LeadingOfSquare(m: Matrix)
    requires IsSquare(m)
    ensures IsWide(m) && Leading(m) == m
  {
    forall i | 0 <= i < |m|
      ensures Leading(m)[i] == m[i]
    {
      assert m[i][..|m|] == m[i];
    }
  }

  /** Sum of the entries, added left to right. */
  function Sum(xs: seq<real>): real {
    if xs == [] then 0.0 else Sum(xs[..|xs| - 1]) + xs[|xs| - 1]
  }

  /** The sum of a concatenation is the sum of the parts. */
  lemma {:induction false} SumAppend(xs: seq<real>, ys: seq<real>)
    ensures Sum(xs + ys) == Sum(xs) + Sum(ys)
    decreases |ys|
  {
    if ys == [] {
      assert xs + ys == xs;
    } else {
      var last := ys[|ys| - 1];
      var init := ys[..|ys| - 1];
      assert (xs + ys)[..|xs + ys| - 1] == xs + init;
      SumAppend(xs, init);
    }
  }

  /** Taking one entry out lowers the sum by that entry. */
  lemma SumRemove(ys: seq<real>, i: nat)
    requires i < |ys|
    ensures Sum(ys) == Sum(ys[..i] + ys[i + 1..]) + ys[i]
  {
    var a, x, b := ys[..i], ys[i], ys[i + 1..];
    assert ys == (a + [x]) + b;
    SumAppend(a + [x], b);
    SumSnoc(a, x);
    SumAppend(a, b);
  }

  /** Appending one entry adds it to the sum. */
  lemma SumSnoc(a: seq<real>, x: real)
    ensures Sum(a + [x]) == Sum(a) + x
  {
    assert (a + [x])[..|a|] == a;
  }


  /** Removing an entry from both sides of a multiset equality keeps it. */
  lemma MultisetRemove<T>(xs: seq<T>, ys: seq<T>, i: nat)
    requires multiset(xs) == multiset(ys) && xs != [] && i < |ys| && ys[i] == xs[|xs| - 1]
    ensures multiset(xs[..|xs| - 1]) == multiset(ys[..i] + ys[i + 1..])
  {
    var x := ys[i];
    assert xs == xs[..|xs| - 1] + [x];
    assert ys == ys[..i] + [x] + ys[i + 1..];
    var a := multiset(xs[..|xs| - 1]);
    var b := multiset(ys[..i] + ys[i + 1..]);
    assert multiset(ys) == multiset(ys[..i]) + multiset{x} + multiset(ys[i + 1..]);
    assert a + multiset{x} == b + multiset{x};
    forall e ensures a[e] == b[e] {
      assert (a + multiset{x})[e] == a[e] + multiset{x}[e];
      assert (b + multiset{x})[e] == b[e] + multiset{x}[e];
    }
    assert a == b;
  }

  /** The sum does not depend on the order of the entries. */
  lemma {:induction false} SumPermutation(xs: seq<real>, ys: seq<real>)
    requires multiset(xs) == multiset(ys)
    ensures Sum(xs) == Sum(ys)
    decreases |xs|
  {
    if xs == [] {
      assert |ys| == |multiset(ys)| == 0;
    } else {
      var x := xs[|xs| - 1];
      assert x in multiset(ys);
      var i :| 0 <= i < |ys| && ys[i] == x;
      MultisetRemove(xs, ys, i);
      SumPermutation(xs[..|xs| - 1], ys[..i] + ys[i + 1..]);
      SumRemove(ys, i);
    }
  }

  /** A sum of non-negative entries is non-negative, and positive when some entry is. */
  lemma {:induction false} SumNonNegative(xs: seq<real>)
    requires forall i :: 0 <= i < |xs| ==> xs[i] >= 0.0
    ensures Sum(xs) >= 0.0
    ensures (exists i :: 0 <= i < |xs| && xs[i] > 0.0) ==> Sum(xs) > 0.0
  {
    if xs != [] {
      SumNonNegative(xs[..|xs| - 1]);
      if exists i :: 0 <= i < |xs| && xs[i] > 0.0 {
        var i :| 0 <= i < |xs| && xs[i] > 0.0;
        if i < |xs| - 1 {
          assert xs[..|xs| - 1][i] > 0.0;
        }
      }
    }
  }

  /** Σ_{j<k} row[j]·x[j]: the left-hand side of one equation over its first k terms. */
  function DotPrefix(row: Vector, x: Vector, k: nat): real
    requires k <= |row| && k <= |x|
  {
    if k == 0 then 0.0 else DotPrefix(row, x, k - 1) + row[k - 1] * x[k - 1]
  }

  /** A freshly allocated `double[n]`: n zeros. */
  function Zeros(n: nat): (z: Vector)
    ensures |z| == n && forall i :: 0 <= i < n ==> z[i] == 0.0
  {
    seq(n, i requires 0 <= i < n => 0.0)
  }

  /** A·x for an n-column matrix. */
  function MatVec(a: Matrix, x: Vector): (r: Vector)
    requires IsRect(a, |x|)
    ensures |r| == |a|
  {
    seq(|a|, i requires 0 <= i < |a| => DotPrefix(a[i], x, |x|))
  }

  /** The matrix of a two-dimensional array, row by row. */
  ghost function ArrayMatrix(a: array2<real>): (m: Matrix)
    reads a
    ensures |m| == a.Length0 && IsRect(m, a.Length1)
  {
    seq(a.Length0, i requires 0 <= i < a.Length0 reads a =>
      seq(a.Length1, j requires 0 <= j < a.Length1 reads a => a[i, j]))
  }
}
