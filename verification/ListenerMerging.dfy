/**
 MergeListeners: listeners are merged by host name, protocol, port and address, the first one
 winning (pkg/brownfield/listeners.go). The multi-host field is not part of that key.
 */
module ListenerMerging {
  import opened Resources
  import opened Iteration
  import opened Classification

  datatype ListenerKey = ListenerKey(hostName: string, https: bool, port: string, frontendIp: string)

  function OrBlank(s: Option<string>): string {
    if s.Some? then s.value else ""
  }

  function KeyOf(l: ExistingListener): ListenerKey {
    ListenerKey(OrBlank(l.body.hostName), l.body.https, OrBlank(l.body.port), OrBlank(l.body.frontendIp))
  }

  function FirstWith(xs: seq<ExistingListener>, key: ListenerKey): (r: Option<ExistingListener>)
    ensures r.Some? ==> r.value in xs && KeyOf(r.value) == key
    ensures r.None? ==> forall x :: x in xs ==> KeyOf(x) != key
  {
    if xs == [] then None
    else
      var before := FirstWith(xs[..|xs| - 1], key);
      if before.Some? then before
      else if KeyOf(xs[|xs| - 1]) == key then Some(xs[|xs| - 1])
      else None
  }

  /** Absent and blank are the same. */
  predicate SameText(a: Option<string>, b: Option<string>) {
    a == b || ((a.None? || a.value == "") && (b.None? || b.value == ""))
  }

  /** The two have the same host name, protocol, port and address: only one can be kept. */
  predicate Rivals(a: ExistingListener, b: ExistingListener) {
    && SameText(a.body.hostName, b.body.hostName)
    && a.body.https == b.body.https
    && SameText(a.body.port, b.body.port)
    && SameText(a.body.frontendIp, b.body.frontendIp)
  }

  /** The listener stands before all its rivals. */
  ghost predicate FirstOfRivals(xs: seq<ExistingListener>, l: ExistingListener) {
    exists i :: 0 <= i < |xs| && xs[i] == l && forall j :: 0 <= j < i ==> !Rivals(xs[j], l)
  }

  lemma {:induction false} FirstWithIs(xs: seq<ExistingListener>, l: ExistingListener)
    ensures FirstWith(xs, KeyOf(l)) == Some(l) <==> FirstOfRivals(xs, l)
    ensures forall x :: KeyOf(x) == KeyOf(l) <==> Rivals(x, l)
  {
    if xs != [] {
      var n := |xs| - 1;
      FirstWithIs(xs[..n], l);
      assert forall i :: 0 <= i < n ==> xs[..n][i] == xs[i];
      if FirstWith(xs[..n], KeyOf(l)).None? && KeyOf(xs[n]) == KeyOf(l) {
        forall j | 0 <= j < n ensures !Rivals(xs[j], l) {
          assert xs[j] in xs[..n];
        }
      }
    }
  }

  type Index = map<ListenerKey, ExistingListener>

  /** The index holds the first listener of each key. */
  ghost predicate HoldsFirst(index: Index, xs: seq<ExistingListener>) {
    && (forall k :: k in index <==> FirstWith(xs, k).Some?)
    && (forall k :: k in index ==> FirstWith(xs, k) == Some(index[k]))
  }

  lemma HoldsFirstSnoc(index: Index, xs: seq<ExistingListener>, x: ExistingListener)
    requires HoldsFirst(index, xs)
    ensures HoldsFirst(if KeyOf(x) in index then index else index[KeyOf(x) := x], xs + [x])
  {
    assert (xs + [x])[..|xs|] == xs;
  }

  method AddBucket(index: Index, ghost before: seq<ExistingListener>, bucket: seq<ExistingListener>) returns (r: Index)
    requires HoldsFirst(index, before)
    ensures HoldsFirst(r, before + bucket)
  {
    r := index;
    assert before + bucket[..0] == before;
    for i := 0 to |bucket|
      invariant HoldsFirst(r, before + bucket[..i])
    {
      HoldsFirstSnoc(r, before + bucket[..i], bucket[i]);
      assert before + bucket[..i + 1] == before + bucket[..i] + [bucket[i]];
      if KeyOf(bucket[i]) !in r {
        r := r[KeyOf(bucket[i]) := bucket[i]];
      }
    }
    assert bucket[..|bucket|] == bucket;
  }

  method MergeListeners(buckets: seq<seq<ExistingListener>>) returns (merged: seq<ExistingListener>)
    ensures forall i, j :: 0 <= i < j < |merged| ==> !Rivals(merged[i], merged[j])
    ensures forall l :: l in merged <==> FirstOfRivals(Flatten(buckets), l)
  {
    var uniq: Index := map[];
    for b := 0 to |buckets|
      invariant HoldsFirst(uniq, Flatten(buckets[..b]))
    {
      uniq := AddBucket(uniq, Flatten(buckets[..b]), buckets[b]);
      FlattenSnoc(buckets, b);
    }
    assert buckets[..|buckets|] == buckets;
    var order, values := ValuesInMapOrder(uniq);
    merged := values;
    IndexedAreFirst(uniq, Flatten(buckets), order, values);
  }

  /** The values of the index, listed once per key, are the listeners that stand before their rivals. */
  lemma IndexedAreFirst(index: Index, xs: seq<ExistingListener>, order: seq<ListenerKey>, values: seq<ExistingListener>)
    requires HoldsFirst(index, xs) && Distinct(order) && (forall k :: k in order <==> k in index)
    requires |values| == |order| && forall i :: 0 <= i < |order| ==> order[i] in index && values[i] == index[order[i]]
    ensures forall i, j :: 0 <= i < j < |values| ==> !Rivals(values[i], values[j])
    ensures forall l :: l in values <==> FirstOfRivals(xs, l)
  {
    forall i | 0 <= i < |order| ensures KeyOf(values[i]) == order[i] {
      assert FirstWith(xs, order[i]) == Some(values[i]);
    }
    forall i, j | 0 <= i < j < |values| ensures !Rivals(values[i], values[j]) {
      FirstWithIs(xs, values[j]);
    }
    forall l ensures l in values <==> FirstOfRivals(xs, l) {
      FirstWithIs(xs, l);
      if FirstWith(xs, KeyOf(l)) == Some(l) {
        assert KeyOf(l) in index;
        var i :| 0 <= i < |order| && order[i] == KeyOf(l);
        assert values[i] == l;
      }
    }
  }

  /** No listener is lost exactly when listeners that differ are no rivals. */
  lemma AllKeptIff(all: seq<ExistingListener>, merged: seq<ExistingListener>)
    requires forall l :: l in merged <==> FirstOfRivals(all, l)
    ensures (forall l :: l in all ==> l in merged) <==>
      (forall a, b :: a in all && b in all && Rivals(a, b) ==> a == b)
  {
    if forall a, b :: a in all && b in all && Rivals(a, b) ==> a == b {
      forall l | l in all ensures l in merged {
        FirstWithIs(all, l);
      }
    }
    if forall l :: l in all ==> l in merged {
      forall a, b | a in all && b in all && Rivals(a, b) ensures a == b {
        FirstWithIs(all, a);
        FirstWithIs(all, b);
      }
    }
  }

  /** Of two multi-host listeners on one port and address, the second is lost. */
  lemma MultiHostListenerIsLost(a: ExistingListener, b: ExistingListener, merged: seq<ExistingListener>)
    requires a != b && a.body.hostName == b.body.hostName == None && b.body == a.body.(hostNames := b.body.hostNames)
    requires forall l :: l in merged <==> FirstOfRivals([a, b], l)
    ensures a in merged && b !in merged
  {
    var all := [a, b];
    assert all[0] == a && Rivals(a, b);
    assert FirstOfRivals(all, a);
  }
}
