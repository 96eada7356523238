/** Sorting by name, as the routing compiler does before it stores a list (pkg/sorter). */
module Sorting {
  import opened Iteration

  ghost predicate Sorted<T>(xs: seq<T>, key: T -> real) {
    forall i, j :: 0 <= i < j < |xs| ==> key(xs[i]) <= key(xs[j])
  }

  /** Each of the first `n` numbers once. */
  ghost predicate Permutation(perm: seq<int>, n: nat) {
    |perm| == n && Distinct(perm) && forall i :: i in perm <==> 0 <= i < n
  }

  /** The place for `x` in a sorted list. */
  method FindPlace<T>(ys: seq<T>, key: T -> real, x: T) returns (p: nat)
    requires Sorted(ys, key)
    ensures p <= |ys|
    ensures forall i :: 0 <= i < p ==> key(ys[i]) <= key(x)
    ensures forall i :: p <= i < |ys| ==> key(x) < key(ys[i])
  {
    p := |ys|;
    while p > 0 && key(x) < key(ys[p - 1])
      invariant p <= |ys|
      invariant forall i :: p <= i < |ys| ==> key(x) < key(ys[i])
    {
      p := p - 1;
    }
  }

  function InsertAt<T>(xs: seq<T>, p: nat, x: T): (ys: seq<T>)
    requires p <= |xs|
    ensures |ys| == |xs| + 1
    ensures forall k :: 0 <= k < |ys| ==> ys[k] == if k < p then xs[k] else if k == p then x else xs[k - 1]
  {
    xs[..p] + [x] + xs[p..]
  }

  lemma InsertAtHas<T>(xs: seq<T>, p: nat, x: T, y: T)
    requires p <= |xs|
    ensures y in InsertAt(xs, p, x) <==> y == x || y in xs
  {
    var ys := InsertAt(xs, p, x);
    if y in xs {
      var k :| 0 <= k < |xs| && xs[k] == y;
      assert ys[if k < p then k else k + 1] == y;
    }
    assert ys[p] == x;
  }

  lemma PermutationGrows(perm: seq<int>, n: nat, p: nat)
    requires Permutation(perm, n) && p <= n
    ensures Permutation(InsertAt(perm, p, n), n + 1)
  {
    var more := InsertAt(perm, p, n);
    forall i ensures i in more <==> i == n || i in perm {
      InsertAtHas(perm, p, n, i);
    }
    assert forall k :: 0 <= k < n ==> perm[k] in perm;
  }

  /** The ordered permutation: `perm` says where each element comes from. */
  method SortBy<T>(xs: seq<T>, key: T -> real) returns (ys: seq<T>, ghost perm: seq<int>)
    ensures Sorted(ys, key) && Permutation(perm, |xs|) && ys == Permuted(xs, perm)
  {
    ys, perm := [], [];
    for n := 0 to |xs|
      invariant Sorted(ys, key) && Permutation(perm, n) && |ys| == n
      invariant forall k :: 0 <= k < n ==> 0 <= perm[k] < n && ys[k] == xs[perm[k]]
    {
      var p := FindPlace(ys, key, xs[n]);
      PermutationGrows(perm, n, p);
      ys := InsertAt(ys, p, xs[n]);
      perm := InsertAt(perm, p, n);
    }
  }

  /** Lists with the same elements, sorted by a key that tells their elements apart, are the same. */
  lemma {:induction false} SortedIsUnique<T(!new)>(a: seq<T>, b: seq<T>, key: T -> real)
    requires forall x :: x in a <==> x in b
    requires forall i, j :: 0 <= i < j < |a| ==> key(a[i]) < key(a[j])
    requires forall i, j :: 0 <= i < j < |b| ==> key(b[i]) < key(b[j])
    ensures a == b
  {
    assert |a| > 0 ==> a[0] in b;
    assert |b| > 0 ==> b[0] in a;
    if a != [] && b != [] {
      var i :| 0 <= i < |b| && b[i] == a[0];
      var j :| 0 <= j < |a| && a[j] == b[0];
      assert a[0] == b[0];
      forall x ensures x in a[1..] <==> x in b[1..] {
        assert x in a <==> x == a[0] || x in a[1..];
        assert x in b <==> x == b[0] || x in b[1..];
      }
      SortedIsUnique(a[1..], b[1..], key);
    }
  }

  /** Elements picked by a permutation of the positions. */
  ghost function Permuted<T>(xs: seq<T>, perm: seq<int>): (ys: seq<T>)
    requires Permutation(perm, |xs|)
    ensures |ys| == |xs| && forall k :: 0 <= k < |ys| ==> perm[k] in perm && ys[k] == xs[perm[k]]
  {
    assert forall k :: 0 <= k < |perm| ==> perm[k] in perm;
    seq(|xs|, k requires 0 <= k < |perm| && perm[k] in perm => xs[perm[k]])
  }

  lemma PermutedIs<T(!new)>(xs: seq<T>, perm: seq<int>)
    requires Permutation(perm, |xs|)
    ensures forall x :: x in Permuted(xs, perm) <==> x in xs
    ensures Distinct(xs) ==> Distinct(Permuted(xs, perm))
  {
    var ys := Permuted(xs, perm);
    forall x | x in xs ensures x in ys {
      var i :| 0 <= i < |xs| && xs[i] == x;
      assert i in perm;
      var k :| 0 <= k < |perm| && perm[k] == i;
      assert ys[k] == x;
    }
    if Distinct(xs) {
      forall i, j | 0 <= i < j < |ys| ensures ys[i] != ys[j] {
        assert perm[i] in perm && perm[j] in perm && perm[i] != perm[j];
      }
    }
  }
}
