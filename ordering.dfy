/** The order shortest-job-first imposes: `List.sort` with a comparator on
    the estimates that puts jobs without an estimate last. Java's list sort
    is stable, so it is modelled as an insertion sort and proved sorted, a
    permutation, and stable. */
module Ordering {
  import opened Wrappers

  /** `Comparator.nullsLast(Long::compareTo)` as "sorts no later than". */
  predicate KeyLe(x: Option<int>, y: Option<int>) {
    match (x, y)
    case (_, None) => true
    case (None, Some(_)) => false
    case (Some(m), Some(n)) => m <= n
  }

  lemma KeyLeTotal(x: Option<int>, y: Option<int>)
    ensures KeyLe(x, y) || KeyLe(y, x)
    ensures KeyLe(x, x)
  {
  }

  lemma KeyLeTransitive(x: Option<int>, y: Option<int>, z: Option<int>)
    requires KeyLe(x, y) && KeyLe(y, z)
    ensures KeyLe(x, z)
  {
  }

  /** Whatever sorts no earlier than `x` sorts after every key `x` sorts
      after. */
  lemma KeyLtTransitive(x: Option<int>, y: Option<int>, z: Option<int>)
    requires KeyLe(x, y) && !KeyLe(x, z)
    ensures !KeyLe(y, z)
  {
  }

  predicate Sorted<T(==)>(xs: seq<T>, key: T -> Option<int>) {
    forall i, j :: 0 <= i < j < |xs| ==> KeyLe(key(xs[i]), key(xs[j]))
  }

  /** Every element sorts no earlier than `a`. */
  predicate AllAfter<T(==)>(a: T, xs: seq<T>, key: T -> Option<int>) {
    forall e :: e in xs ==> KeyLe(key(a), key(e))
  }

  lemma SortedCons<T>(a: T, xs: seq<T>, key: T -> Option<int>)
    ensures Sorted([a] + xs, key) <==> AllAfter(a, xs, key) && Sorted(xs, key)
  {
    var s := [a] + xs;
    if AllAfter(a, xs, key) && Sorted(xs, key) {
      forall i, j | 0 <= i < j < |s|
        ensures KeyLe(key(s[i]), key(s[j]))
      {
        assert s[j] == xs[j - 1] && s[j] in xs;
        if i > 0 {
          assert s[i] == xs[i - 1];
        }
      }
    }
    if Sorted(s, key) {
      forall e | e in xs
        ensures KeyLe(key(a), key(e))
      {
        var j :| 0 <= j < |xs| && xs[j] == e;
        assert s[0] == a && s[j + 1] == e;
      }
      forall i, j | 0 <= i < j < |xs|
        ensures KeyLe(key(xs[i]), key(xs[j]))
      {
        assert s[i + 1] == xs[i] && s[j + 1] == xs[j];
      }
    }
  }

  /** Inserts `x` after every element that sorts no later than it. */
  function Insert<T(==)>(x: T, sorted: seq<T>, key: T -> Option<int>): (r: seq<T>)
    ensures multiset(r) == multiset(sorted) + multiset{x}
    ensures |r| == |sorted| + 1
  {
    if sorted == [] then [x]
    else if KeyLe(key(sorted[0]), key(x)) then
      assert sorted == [sorted[0]] + sorted[1..];
      [sorted[0]] + Insert(x, sorted[1..], key)
    else [x] + sorted
  }

  /** The stable sort: the list without its last element is sorted, and the
      last element is inserted into the result. */
  function SortByKey<T(==)>(xs: seq<T>, key: T -> Option<int>): (r: seq<T>)
    ensures multiset(r) == multiset(xs) && |r| == |xs|
    decreases |xs|
  {
    if xs == [] then []
    else
      assert xs == xs[..|xs| - 1] + [xs[|xs| - 1]];
      Insert(xs[|xs| - 1], SortByKey(xs[..|xs| - 1], key), key)
  }

  lemma {:induction false} InsertSorted<T>(x: T, sorted: seq<T>, key: T -> Option<int>)
    requires Sorted(sorted, key)
    ensures Sorted(Insert(x, sorted, key), key)
    decreases |sorted|
  {
    if sorted != [] {
      var a, tail := sorted[0], sorted[1..];
      assert sorted == [a] + tail;
      SortedCons(a, tail, key);
      if KeyLe(key(a), key(x)) {
        var ins := Insert(x, tail, key);
        InsertSorted(x, tail, key);
        forall e | e in ins
          ensures KeyLe(key(a), key(e))
        {
          assert e in multiset(ins);
          if e != x {
            assert e in multiset(tail);
          }
        }
        SortedCons(a, ins, key);
      } else {
        forall e | e in sorted
          ensures KeyLe(key(x), key(e))
        {
          KeyLeTotal(key(a), key(x));
          if e != a {
            assert e in tail;
            KeyLeTransitive(key(x), key(a), key(e));
          }
        }
        SortedCons(x, sorted, key);
      }
    }
  }

  /** The result is ordered by estimate, jobs without one last. */
  lemma {:induction false} SortByKeySorted<T>(xs: seq<T>, key: T -> Option<int>)
    ensures Sorted(SortByKey(xs, key), key)
    decreases |xs|
  {
    if xs != [] {
      SortByKeySorted(xs[..|xs| - 1], key);
      InsertSorted(xs[|xs| - 1], SortByKey(xs[..|xs| - 1], key), key);
    }
  }

  /** The elements whose key is `k`, in their order. */
  function WithKey<T(==)>(xs: seq<T>, key: T -> Option<int>, k: Option<int>): (r: seq<T>)
    ensures |r| <= |xs|
  {
    if xs == [] then []
    else (if key(xs[0]) == k then [xs[0]] else []) + WithKey(xs[1..], key, k)
  }

  lemma {:induction false} WithKeyAppend<T>(xs: seq<T>, ys: seq<T>, key: T -> Option<int>, k: Option<int>)
    ensures WithKey(xs + ys, key, k) == WithKey(xs, key, k) + WithKey(ys, key, k)
    decreases |xs|
  {
    if xs == [] {
      assert xs + ys == ys;
    } else {
      var zs := xs + ys;
      assert zs[0] == xs[0] && zs[1..] == xs[1..] + ys;
      WithKeyAppend(xs[1..], ys, key, k);
    }
  }

  /** No element of a list whose elements all sort after key `k` has key `k`. */
  lemma {:induction false} WithKeyNone<T>(xs: seq<T>, key: T -> Option<int>, k: Option<int>)
    requires forall e :: e in xs ==> !KeyLe(key(e), k)
    ensures WithKey(xs, key, k) == []
    decreases |xs|
  {
    if xs != [] {
      KeyLeTotal(k, k);
      assert xs[0] in xs;
      assert forall e :: e in xs[1..] ==> e in xs;
      WithKeyNone(xs[1..], key, k);
    }
  }

  /** Inserting `x` adds it after every element with its key and adds nothing
      for another key. */
  lemma {:induction false} InsertWithKey<T>(x: T, sorted: seq<T>, key: T -> Option<int>, k: Option<int>)
    requires Sorted(sorted, key)
    ensures WithKey(Insert(x, sorted, key), key, k) == WithKey(sorted, key, k) + (if key(x) == k then [x] else [])
    decreases |sorted|
  {
    if sorted == [] {
      assert Insert(x, sorted, key) == [x];
      WithKeySingle(x, key, k);
    } else {
      var a, tail := sorted[0], sorted[1..];
      assert sorted == [a] + tail;
      SortedCons(a, tail, key);
      if KeyLe(key(a), key(x)) {
        InsertWithKey(x, tail, key, k);
        assert Insert(x, sorted, key) == [a] + Insert(x, tail, key);
        ConsWithKey(a, Insert(x, tail, key), tail, if key(x) == k then [x] else [], key, k);
      } else {
        InsertBeforeHead(x, a, tail, key, k);
      }
    }
  }

  /** Putting the same head on two lists whose elements with key `k` differ
      by a suffix keeps that difference. */
  lemma ConsWithKey<T>(a: T, xs: seq<T>, ys: seq<T>, extra: seq<T>, key: T -> Option<int>, k: Option<int>)
    requires WithKey(xs, key, k) == WithKey(ys, key, k) + extra
    ensures WithKey([a] + xs, key, k) == WithKey([a] + ys, key, k) + extra
  {
    var head := WithKey([a], key, k);
    WithKeyAppend([a], xs, key, k);
    WithKeyAppend([a], ys, key, k);
    assert head + (WithKey(ys, key, k) + extra) == (head + WithKey(ys, key, k)) + extra;
  }

  /** When `x` goes before the head `a` of a sorted list, no element of the
      list has the key of `x`. */
  lemma InsertBeforeHead<T>(x: T, a: T, tail: seq<T>, key: T -> Option<int>, k: Option<int>)
    requires !KeyLe(key(a), key(x)) && AllAfter(a, tail, key)
    ensures WithKey(Insert(x, [a] + tail, key), key, k) == WithKey([a] + tail, key, k) + (if key(x) == k then [x] else [])
  {
    var sorted := [a] + tail;
    assert Insert(x, sorted, key) == [x] + sorted;
    if key(x) == k {
      forall e | e in sorted
        ensures !KeyLe(key(e), k)
      {
        if e != a {
          assert e in tail;
          KeyLtTransitive(key(a), key(e), k);
        }
      }
      WithKeyNone(sorted, key, k);
    }
    WithKeyAppend([x], sorted, key, k);
    WithKeySingle(x, key, k);
  }

  lemma WithKeySingle<T>(x: T, key: T -> Option<int>, k: Option<int>)
    ensures WithKey([x], key, k) == if key(x) == k then [x] else []
  {
    assert [x][1..] == [];
  }

  /** The sort is stable: for every estimate, the elements with that estimate
      keep their original order. */
  lemma {:induction false} SortByKeyStable<T>(xs: seq<T>, key: T -> Option<int>, k: Option<int>)
    ensures WithKey(SortByKey(xs, key), key, k) == WithKey(xs, key, k)
    decreases |xs|
  {
    if xs != [] {
      var init, last := xs[..|xs| - 1], xs[|xs| - 1];
      var sortedInit := SortByKey(init, key);
      var tail := if key(last) == k then [last] else [];
      SortByKeySorted(init, key);
      assert xs == init + [last];
      calc {
        WithKey(SortByKey(xs, key), key, k);
        WithKey(Insert(last, sortedInit, key), key, k);
        { InsertWithKey(last, sortedInit, key, k); }
        WithKey(sortedInit, key, k) + tail;
        { SortByKeyStable(init, key, k); }
        WithKey(init, key, k) + tail;
        { WithKeySingle(last, key, k); }
        WithKey(init, key, k) + WithKey([last], key, k);
        { WithKeyAppend(init, [last], key, k); }
        WithKey(xs, key, k);
      }
    }
  }

  lemma {:induction false} WithKeyAll<T>(xs: seq<T>, key: T -> Option<int>, k: Option<int>)
    requires forall e :: e in xs ==> key(e) == k
    ensures WithKey(xs, key, k) == xs
    decreases |xs|
  {
    if xs != [] {
      assert xs[0] in xs;
      assert forall e :: e in xs[1..] ==> e in xs;
      WithKeyAll(xs[1..], key, k);
      assert xs == [xs[0]] + xs[1..];
    }
  }

  /** When every estimate is the same, the sort keeps the original order. */
  lemma SortByKeyEqualKeys<T>(xs: seq<T>, key: T -> Option<int>, k: Option<int>)
    requires forall e :: e in xs ==> key(e) == k
    ensures SortByKey(xs, key) == xs
  {
    var r := SortByKey(xs, key);
    SortByKeyStable(xs, key, k);
    WithKeyAll(xs, key, k);
    forall e | e in r
      ensures key(e) == k
    {
      assert e in multiset(r);
    }
    WithKeyAll(r, key, k);
  }

  /** Estimates 50, 10 and 30 run in the order 10, 30, 50. */
  lemma SortByKeyExample<T>(x: T, y: T, z: T, key: T -> Option<int>)
    requires key(x) == Some(50) && key(y) == Some(10) && key(z) == Some(30)
    ensures SortByKey([x, y, z], key) == [y, z, x]
  {
    assert [x, y, z][..2] == [x, y];
    assert [x, y][..1] == [x];
    assert [x][..0] == [];
    assert SortByKey([x], key) == [x];
    assert SortByKey([x, y], key) == Insert(y, [x], key) == [y, x];
    assert Insert(z, [x], key) == [z, x];
    assert Insert(z, [y, x], key) == [y] + Insert(z, [x], key);
  }
}
