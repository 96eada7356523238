/** Sequence and map vocabulary shared by the loops of the model. */
module Iteration {
  import opened Resources

  ghost predicate Distinct<T>(s: seq<T>) {
    forall i, j :: 0 <= i < j < |s| ==> s[i] != s[j]
  }

  /** The order in which a loop over a Go map visits its keys: any order, each key once. */
  method VisitOrder<K(==)>(keys: set<K>) returns (order: seq<K>)
    ensures Distinct(order)
    ensures forall k :: k in order <==> k in keys
    ensures |order| == |keys|
  {
    order := [];
    var left := keys;
    while left != {}
      invariant Distinct(order)
      invariant left <= keys
      invariant forall k :: k in order <==> k in keys - left
      invariant |order| + |left| == |keys|
      decreases |left|
    {
      var k :| k in left;
      assert k !in order;
      order := order + [k];
      left := left - {k};
    }
  }

  /** The values of a Go map in the order a loop visits them, with the keys they came from. */
  method ValuesInMapOrder<K(==), V>(m: map<K, V>) returns (order: seq<K>, values: seq<V>)
    ensures Distinct(order) && |values| == |order| == |m|
    ensures forall k :: k in order <==> k in m
    ensures forall i :: 0 <= i < |order| ==> order[i] in m && values[i] == m[order[i]]
  {
    order := VisitOrder(m.Keys);
    values := [];
    for i := 0 to |order|
      invariant |values| == i
      invariant forall j :: 0 <= j < i ==> order[j] in m && values[j] == m[order[j]]
    {
      assert order[i] in m;
      values := values + [m[order[i]]];
    }
  }

  /** Copying one Go map over another, in the order a loop visits it. */
  method PutAll<K(==), V>(before: map<K, V>, more: map<K, V>) returns (all: map<K, V>)
    ensures all == before + more
  {
    all := before;
    var order, values := ValuesInMapOrder(more);
    ghost var done: map<K, V> := map[];
    for i := 0 to |order|
      invariant all == before + done
      invariant forall j :: 0 <= j < i ==> order[j] in done
      invariant forall k :: k in done ==> k in more && done[k] == more[k]
    {
      all := all[order[i] := values[i]];
      done := done[order[i] := values[i]];
    }
    assert done == more;
  }

  /** All buckets one after the other. */
  function Flatten<T>(buckets: seq<seq<T>>): seq<T> {
    if buckets == [] then [] else Flatten(buckets[..|buckets| - 1]) + buckets[|buckets| - 1]
  }

  lemma FlattenSnoc<T>(buckets: seq<seq<T>>, i: nat)
    requires i < |buckets|
    ensures Flatten(buckets[..i + 1]) == Flatten(buckets[..i]) + buckets[i]
  {
    assert buckets[..i + 1][..i] == buckets[..i];
  }

  /** Maps laid over one another, the later one winning. */
  function Overlay<K, V>(ms: seq<map<K, V>>): map<K, V> {
    if ms == [] then map[] else Overlay(ms[..|ms| - 1]) + ms[|ms| - 1]
  }

  /** Map `i` is the last one that knows `k`. */
  ghost predicate LastToKnow<K, V>(ms: seq<map<K, V>>, k: K, i: int) {
    0 <= i < |ms| && k in ms[i] && forall j :: i < j < |ms| ==> k !in ms[j]
  }

  lemma {:induction false} OverlayKnows<K, V>(ms: seq<map<K, V>>, i: nat, k: K)
    requires i < |ms| && k in ms[i]
    ensures k in Overlay(ms)
  {
    var n := |ms| - 1;
    if i < n {
      OverlayKnows(ms[..n], i, k);
    }
  }

  lemma {:induction false} OverlaySays<K, V>(ms: seq<map<K, V>>, k: K) returns (i: nat)
    requires k in Overlay(ms)
    ensures LastToKnow(ms, k, i) && Overlay(ms)[k] == ms[i][k]
  {
    var n := |ms| - 1;
    if k in ms[n] {
      i := n;
    } else {
      i := OverlaySays(ms[..n], k);
      forall j | i < j < |ms| ensures k !in ms[j] {
        if j < n { assert ms[j] == ms[..n][j]; }
      }
    }
  }

  lemma OverlaySnoc<K, V>(ms: seq<map<K, V>>, n: nat)
    requires n < |ms|
    ensures Overlay(ms[..n + 1]) == Overlay(ms[..n]) + ms[n]
  {
    assert ms[..n + 1][..n] == ms[..n];
  }

  lemma {:induction false} DistinctCard<T>(s: seq<T>)
    requires Distinct(s)
    ensures |set x | x in s| == |s|
  {
    if s != [] {
      var n := |s| - 1;
      DistinctCard(s[..n]);
      assert (set x | x in s) == (set x | x in s[..n]) + {s[n]};
    }
  }

  /** Lists without repetition and with the same elements are equally long. */
  lemma SameElementsSameLength<T(!new)>(a: seq<T>, b: seq<T>)
    requires Distinct(a) && Distinct(b) && forall x :: x in a <==> x in b
    ensures |a| == |b|
  {
    DistinctCard(a);
    DistinctCard(b);
    assert (set x | x in a) == (set x | x in b);
  }

  /** A map filled by a loop over keys and values; of equal keys the last one stays. */
  function Zip<K, V>(keys: seq<K>, values: seq<V>): map<K, V>
    requires |keys| == |values|
  {
    if keys == [] then map[]
    else Zip(keys[..|keys| - 1], values[..|keys| - 1])[keys[|keys| - 1] := values[|keys| - 1]]
  }

  lemma {:induction false} ZipKeys<K, V>(keys: seq<K>, values: seq<V>, k: K)
    requires |keys| == |values|
    ensures k in Zip(keys, values) <==> k in keys
    ensures k in keys ==> exists i :: 0 <= i < |keys| && keys[i] == k && Zip(keys, values)[k] == values[i]
  {
    if keys != [] {
      var n := |keys| - 1;
      ZipKeys(keys[..n], values[..n], k);
      if keys[n] != k && k in keys[..n] {
        var i :| 0 <= i < n && keys[..n][i] == k && Zip(keys[..n], values[..n])[k] == values[..n][i];
        assert keys[i] == k && Zip(keys, values)[k] == values[i];
      }
    }
  }

  lemma ZipSnoc<K, V>(keys: seq<K>, values: seq<V>, n: nat)
    requires n < |keys| == |values|
    ensures Zip(keys[..n + 1], values[..n + 1]) == Zip(keys[..n], values[..n])[keys[n] := values[n]]
  {
    assert keys[..n + 1][..n] == keys[..n] && values[..n + 1][..n] == values[..n];
  }

  /** What the elements yield, one after the other. */
  ghost function Collect<A, B>(xs: seq<A>, f: A -> seq<B>): seq<B> {
    if xs == [] then [] else Collect(xs[..|xs| - 1], f) + f(xs[|xs| - 1])
  }

  lemma CollectSnoc<A, B>(xs: seq<A>, f: A -> seq<B>, n: nat)
    requires n < |xs|
    ensures Collect(xs[..n + 1], f) == Collect(xs[..n], f) + f(xs[n])
  {
    assert xs[..n + 1][..n] == xs[..n];
  }

  lemma CollectOne<A, B>(x: A, f: A -> seq<B>)
    ensures Collect([x], f) == f(x)
  {
    assert [x][..0] == [];
  }

  lemma {:induction false} CollectConcat<A, B>(xs: seq<A>, ys: seq<A>, f: A -> seq<B>)
    ensures Collect(xs + ys, f) == Collect(xs, f) + Collect(ys, f)
  {
    if ys == [] {
      assert xs + ys == xs;
    } else {
      var n := |ys| - 1;
      CollectConcat(xs, ys[..n], f);
      assert (xs + ys)[..|xs + ys| - 1] == xs + ys[..n];
    }
  }

  /** Collecting twice is collecting once with what both yield. */
  lemma {:induction false} CollectTwice<A, B, C>(xs: seq<A>, f: A -> seq<B>, g: B -> seq<C>, h: A -> seq<C>)
    requires forall x :: x in xs ==> Collect(f(x), g) == h(x)
    ensures Collect(Collect(xs, f), g) == Collect(xs, h)
  {
    if xs != [] {
      var n := |xs| - 1;
      CollectTwice(xs[..n], f, g, h);
      CollectConcat(Collect(xs[..n], f), f(xs[n]), g);
    }
  }

  lemma {:induction false} CollectSame<A, B>(xs: seq<A>, f: A -> seq<B>, g: A -> seq<B>)
    requires forall x :: x in xs ==> f(x) == g(x)
    ensures Collect(xs, f) == Collect(xs, g)
  {
    if xs != [] { CollectSame(xs[..|xs| - 1], f, g); }
  }

  lemma {:induction false} CollectHas<A, B>(xs: seq<A>, f: A -> seq<B>, y: B)
    ensures y in Collect(xs, f) <==> exists x :: x in xs && y in f(x)
  {
    if xs != [] {
      var n := |xs| - 1;
      CollectHas(xs[..n], f, y);
      assert forall x :: x in xs <==> x in xs[..n] || x == xs[n];
    }
  }

  /** `keys` are those of the first `k` visited that `made` knows, and `values` what it says of them. */
  ghost predicate Picked<K(!new), V>(order: seq<K>, k: nat, made: map<K, V>, keys: seq<K>, values: seq<V>) {
    && k <= |order| && Distinct(keys) && |values| == |keys|
    && (forall x :: x in keys <==> x in order[..k] && x in made)
    && (forall j :: 0 <= j < |keys| ==> keys[j] in made && values[j] == made[keys[j]])
  }

  lemma PickedSnoc<K(!new), V>(order: seq<K>, k: nat, made: map<K, V>, keys: seq<K>, values: seq<V>)
    requires Distinct(order) && k < |order| && Picked(order, k, made, keys, values)
    ensures order[k] in made ==> Picked(order, k + 1, made, keys + [order[k]], values + [made[order[k]]])
    ensures order[k] !in made ==> Picked(order, k + 1, made, keys, values)
  {
    assert order[..k + 1] == order[..k] + [order[k]] && order[k] !in order[..k];
  }

  /** `xs` are the values there are in `all` behind place `w`, and `ks` their places. */
  ghost predicate Sifted<T>(all: seq<Option<T>>, w: int, ks: seq<int>, xs: seq<T>) {
    && |xs| == |ks|
    && (forall a, b :: 0 <= a < b < |ks| ==> ks[a] < ks[b])
    && (forall k :: k in ks <==> w < k < |all| && 0 <= k && all[k].Some?)
    && (forall a :: 0 <= a < |ks| ==> 0 <= ks[a] < |all| && all[ks[a]] == Some(xs[a]))
  }

  lemma SiftedSnoc<T>(all: seq<Option<T>>, x: Option<T>, w: int, ks: seq<int>, xs: seq<T>)
    requires Sifted(all, w, ks, xs) && w < |all|
    ensures x.Some? ==> Sifted(all + [x], w, ks + [|all|], xs + [x.value])
    ensures x.None? ==> Sifted(all + [x], w, ks, xs)
  {
    var n, more := |all|, ks + [|all|];
    assert more[|ks|] == n;
    assert forall k :: k in ks ==> k in more;
    assert forall k :: 0 <= k < n ==> (all + [x])[k] == all[k];
  }
}
