/**
 The brownfield merges as the controller runs them: in place, on path maps whose
 properties sit behind a shared pointer, with a swap-with-last delete
 (pkg/brownfield/routing_rules.go, pkg/brownfield/pathmaps.go).
 */
module RuleMergingImpl {
  import opened Resources
  import opened Iteration
  import opened RuleMerging
  import opened RuleMergingList

  /** What the embedded properties pointer of a path map points at. */
  class PropsCell {
    var props: PathMapProps<Id>

    constructor (props: PathMapProps<Id>)
      ensures this.props == props
    {
      this.props := props;
    }
  }

  /** `id` is None for a nil ID, which noRulesIngress leaves in the maps it makes. */
  datatype PathMap = PathMap(id: Option<Id>, name: string, cell: PropsCell)

  class Gateway {
    var urlPathMaps: seq<PathMap>

    constructor (urlPathMaps: seq<PathMap>)
      ensures this.urlPathMaps == urlPathMaps
    {
      this.urlPathMaps := urlPathMaps;
    }
  }

  ghost function Cells(maps: seq<PathMap>): set<PropsCell> {
    set i | 0 <= i < |maps| :: maps[i].cell
  }

  /** No two path maps share a properties block. */
  ghost predicate OwnCells(maps: seq<PathMap>) {
    forall i, j :: 0 <= i < j < |maps| ==> maps[i].cell != maps[j].cell
  }

  /** The path maps, with the blocks they point at, are `list`. */
  ghost predicate Shows(maps: seq<PathMap>, list: seq<Entry>)
    reads Cells(maps)
  {
    |list| == |maps| && forall i :: 0 <= i < |maps| ==> list[i] == Entry(maps[i].id, View(maps[i].cell.props))
  }

  lemma {:induction false} ByNameOfDistinct(rules: seq<PathRule<Id>>)
    requires forall i, j :: 0 <= i < j < |rules| ==> rules[i].name != rules[j].name
    ensures forall n :: n in ByName(rules) <==> exists i :: 0 <= i < |rules| && rules[i].name == n
    ensures forall i :: 0 <= i < |rules| ==> ByName(rules)[rules[i].name] == rules[i]
  {
    if rules != [] {
      ByNameOfDistinct(rules[..|rules| - 1]);
    }
  }

  /** The values of a name-indexed map, in the order the map is visited. */
  method RulesInMapOrder(uniq: map<Id, PathRule<Id>>) returns (merged: seq<PathRule<Id>>)
    requires forall n :: n in uniq ==> uniq[n].name == n
    ensures forall i, j :: 0 <= i < j < |merged| ==> merged[i].name != merged[j].name
    ensures ByName(merged) == uniq
  {
    var order, values := ValuesInMapOrder(uniq);
    merged := values;
    ListedByName(uniq, order, values);
  }

  lemma ListedByName(uniq: map<Id, PathRule<Id>>, order: seq<Id>, values: seq<PathRule<Id>>)
    requires Distinct(order) && |values| == |order| && forall n :: n in order <==> n in uniq
    requires forall i :: 0 <= i < |order| ==>
      order[i] in uniq && values[i] == uniq[order[i]] && values[i].name == order[i]
    ensures forall i, j :: 0 <= i < j < |values| ==> values[i].name != values[j].name
    ensures ByName(values) == uniq
  {
    ByNameOfDistinct(values);
    forall n | n in uniq ensures n in ByName(values) && ByName(values)[n] == uniq[n] {
      assert n in order;
      var i :| 0 <= i < |order| && order[i] == n;
      assert values[i].name == n;
    }
    assert forall n :: n in ByName(values) ==> n in order;
  }

  lemma ByNameSnoc(done: seq<PathRule<Id>>, r: PathRule<Id>)
    ensures ByName(done + [r]) == ByName(done)[r.name := r]
  {
    assert (done + [r])[..|done|] == done;
  }

  method AddPathRules(uniq: map<Id, PathRule<Id>>, ghost done: seq<PathRule<Id>>, bucket: seq<PathRule<Id>>)
    returns (r: map<Id, PathRule<Id>>)
    requires uniq == ByName(done) && forall n :: n in uniq ==> uniq[n].name == n
    ensures r == ByName(done + bucket) && forall n :: n in r ==> r[n].name == n
  {
    r := uniq;
    assert done + bucket[..0] == done;
    for i := 0 to |bucket|
      invariant r == ByName(done + bucket[..i])
      invariant forall n :: n in r ==> r[n].name == n
    {
      assert done + bucket[..i + 1] == (done + bucket[..i]) + [bucket[i]];
      ByNameSnoc(done + bucket[..i], bucket[i]);
      r := r[bucket[i].name := bucket[i]];
    }
    assert bucket[..|bucket|] == bucket;
  }

  /** mergePathRules: the buckets' rules, one per name, the last one winning, in map order. */
  method MergePathRules(buckets: seq<seq<PathRule<Id>>>) returns (merged: seq<PathRule<Id>>)
    ensures forall i, j :: 0 <= i < j < |merged| ==> merged[i].name != merged[j].name
    ensures ByName(merged) == ByName(Flatten(buckets))
  {
    var uniq: map<Id, PathRule<Id>> := map[];
    for b := 0 to |buckets|
      invariant uniq == ByName(Flatten(buckets[..b]))
      invariant forall n :: n in uniq ==> uniq[n].name == n
    {
      uniq := AddPathRules(uniq, Flatten(buckets[..b]), buckets[b]);
      FlattenSnoc(buckets, b);
    }
    assert buckets[..|buckets|] == buckets;
    merged := RulesInMapOrder(uniq);
  }

  lemma TwoBuckets(a: seq<PathRule<Id>>, b: seq<PathRule<Id>>)
    ensures ByName(Flatten([a, b])) == ByName(a) + ByName(b)
  {
    assert [a, b][..1] == [a] && [a][..0] == [];
    assert Flatten([a]) == [] + a == a;
    assert Flatten([a, b]) == a + b;
    ByNameConcat(a, b);
  }

  /** The first map with this ID, if no map without an ID comes before it. */
  ghost predicate FoundAt(maps: seq<PathMap>, id: Id, idx: int) {
    && 0 <= idx < |maps| && maps[idx].id == Some(id)
    && forall j :: 0 <= j < idx ==> maps[j].id.Some? && maps[j].id != Some(id)
  }

  /** lookupPathMap: the index of the first path map with this ID, or -1. None is a nil dereference:
      a map without an ID comes up first. */
  method LookupPathMap(maps: seq<PathMap>, id: Id, ghost list: seq<Entry>) returns (idx: Option<int>)
    requires |list| == |maps| && forall i :: 0 <= i < |maps| ==> list[i].id == maps[i].id
    ensures idx.Some? && idx.value != -1 ==> FoundAt(maps, id, idx.value)
    ensures idx == Some(-1) <==> forall i :: 0 <= i < |maps| ==> maps[i].id.Some? && maps[i].id != Some(id)
    ensures idx.None? <==>
      exists n :: 0 <= n < |maps| && maps[n].id.None? && forall j :: 0 <= j < n ==> maps[j].id != Some(id)
    ensures idx == Lookup(list, id)
  {
    for i := 0 to |maps|
      invariant forall j :: 0 <= j < i ==> maps[j].id.Some? && maps[j].id != Some(id)
      invariant Lookup(list, id) == LookupFrom(list, id, i)
    {
      if maps[i].id.None? { return None; }
      if maps[i].id.value == id { return Some(i); }
    }
    return Some(-1);
  }

  /** deletePathMap's search: the last index with this ID, or -1. None is a nil dereference. */
  method FindPathMap(maps: seq<PathMap>, id: Id) returns (deleteIdx: Option<int>)
    ensures deleteIdx.Some? <==> forall i :: 0 <= i < |maps| ==> maps[i].id.Some?
    ensures deleteIdx.Some? ==>
      && -1 <= deleteIdx.value < |maps| && (0 <= deleteIdx.value ==> maps[deleteIdx.value].id == Some(id))
      && forall j :: deleteIdx.value < j < |maps| ==> maps[j].id != Some(id)
  {
    var found := -1;
    for i := 0 to |maps|
      invariant -1 <= found < i
      invariant 0 <= found ==> maps[found].id == Some(id)
      invariant forall j :: 0 <= j < i ==> maps[j].id.Some?
      invariant forall j :: found < j < i ==> maps[j].id != Some(id)
    {
      if maps[i].id.None? { return None; }
      if maps[i].id.value == id {
        found := i;
      }
    }
    return Some(found);
  }

  lemma LastIs(list: seq<Entry>, id: Id, d: int)
    requires -1 <= d < |list| && (0 <= d ==> list[d].id == Some(id))
    requires forall j :: d < j < |list| ==> list[j].id != Some(id)
    ensures LastUpTo(list, id, |list|) == d
  {
  }

  /** `after` is `maps` with the last one called `id`, if there is one, overwritten by the last of all and
      the list cut. */
  ghost predicate LastDeleted(maps: seq<PathMap>, id: Id, after: seq<PathMap>) {
    || (after == maps && forall i :: 0 <= i < |maps| ==> maps[i].id != Some(id))
    || (exists d ::
          && 0 <= d < |maps| && maps[d].id == Some(id) && (forall i :: d < i < |maps| ==> maps[i].id != Some(id))
          && |after| == |maps| - 1
          && forall i :: 0 <= i < |after| ==> after[i] == if i == d then maps[|maps| - 1] else maps[i])
  }

  /** deletePathMap: overwrite the last entry with this ID with the last of the list and cut the list. */
  method DeletePathMap(gw: Gateway, id: Id, ghost list: seq<Entry>) returns (ok: bool)
    requires Shows(gw.urlPathMaps, list)
    modifies gw
    ensures ok <==> forall i :: 0 <= i < |old(gw.urlPathMaps)| ==> old(gw.urlPathMaps)[i].id.Some?
    ensures ok ==> LastDeleted(old(gw.urlPathMaps), id, gw.urlPathMaps)
    ensures ok <==> Deleted(list, id).Some?
    ensures ok ==> Shows(gw.urlPathMaps, Deleted(list, id).value)
    ensures !ok ==> gw.urlPathMaps == old(gw.urlPathMaps)
    ensures old(OwnCells(gw.urlPathMaps)) ==> OwnCells(gw.urlPathMaps)
    ensures Cells(gw.urlPathMaps) <= old(Cells(gw.urlPathMaps))
  {
    var maps := gw.urlPathMaps;
    var deleteIdx := FindPathMap(maps, id);
    if deleteIdx.None? {
      ghost var n :| 0 <= n < |maps| && maps[n].id.None?;
      assert list[n].id.None?;
      return false;
    }
    LastIs(list, id, deleteIdx.value);
    if deleteIdx.value != -1 {
      gw.urlPathMaps := SwapDelete(maps, deleteIdx.value);
    }
    return true;
  }

  /** Writing through the properties pointer of one path map. */
  method WriteProps(maps: seq<PathMap>, i: nat, props: PathMapProps<Id>, ghost list: seq<Entry>)
    requires OwnCells(maps) && i < |maps| && Shows(maps, list)
    modifies maps[i].cell
    ensures Shows(maps, Rewritten(list, i, View(props)))
  {
    maps[i].cell.props := props;
    assert forall j :: 0 <= j < |maps| && j != i ==> maps[j].cell != maps[i].cell;
  }

  /** mergePathMapsWithBasicRule: the basic rule replaces the map's defaults. */
  method MergePathMapWithBasicRule(maps: seq<PathMap>, i: nat, rule: Rule, ghost list: seq<Entry>)
    requires OwnCells(maps) && i < |maps| && Shows(maps, list)
    modifies maps[i].cell
    ensures Shows(maps, Rewritten(list, i, WithDefaults(list[i].contents, rule)))
  {
    WriteProps(maps, i, maps[i].cell.props.(pool := rule.pool, settings := rule.settings,
                                            redirect := rule.redirect, rewrite := rule.rewrite), list);
  }

  /** The path rules of map `s` join those of map `f`, and the last map with the ID of map `s` goes. */
  method AbsorbPathMap(gw: Gateway, f: nat, s: nat, ghost list: seq<Entry>) returns (ok: bool)
    requires OwnCells(gw.urlPathMaps) && Shows(gw.urlPathMaps, list)
    requires f < |gw.urlPathMaps| && s < |gw.urlPathMaps| && gw.urlPathMaps[s].id.Some?
    modifies gw, gw.urlPathMaps[f].cell
    ensures ok <==> AbsorbIn(list, f, s).Some?
    ensures ok ==> Shows(gw.urlPathMaps, AbsorbIn(list, f, s).value)
    ensures ok ==> OwnCells(gw.urlPathMaps) && Cells(gw.urlPathMaps) <= old(Cells(gw.urlPathMaps))
  {
    var maps := gw.urlPathMaps;
    var a, b := maps[f].cell.props, maps[s].cell.props;
    if a.pathRules.None? || b.pathRules.None? { return false; }
    var merged := MergePathRules([a.pathRules.value, b.pathRules.value]);
    TwoBuckets(a.pathRules.value, b.pathRules.value);
    var a' := a.(pathRules := Some(merged));
    WriteProps(maps, f, a', list);
    assert View(a') == Absorb(View(a), View(b));
    ok := DeletePathMap(gw, maps[s].id.value, Rewritten(list, f, View(a')));
  }

  /** mergeRoutingRules: fold the second rule into the first. `None` is a nil dereference. */
  method MergeRoutingRules(gw: Gateway, first: Rule, second: Rule, ghost list: seq<Entry>) returns (kept: Option<Rule>)
    requires OwnCells(gw.urlPathMaps) && Shows(gw.urlPathMaps, list)
    modifies gw, Cells(gw.urlPathMaps)
    ensures kept.Some? <==> MergePairIn(list, first, second).Some?
    ensures kept.Some? ==>
      && kept.value == MergePairIn(list, first, second).value.0
      && Shows(gw.urlPathMaps, MergePairIn(list, first, second).value.1)
      && OwnCells(gw.urlPathMaps) && Cells(gw.urlPathMaps) <= old(Cells(gw.urlPathMaps))
    decreases first.ruleType.Basic?
  {
    if first.ruleType.Basic? && second.ruleType.PathBasedRouting? {
      kept := MergeRoutingRules(gw, second, first, list);
      return;
    }
    if first.ruleType.PathBasedRouting? {
      if first.pathMap.None? { return None; }
      var f := LookupPathMap(gw.urlPathMaps, first.pathMap.value, list);
      if f.None? || f.value == -1 { return None; }
      if second.ruleType.Basic? {
        MergePathMapWithBasicRule(gw.urlPathMaps, f.value, second, list);
        return Some(first);
      }
      if second.pathMap.None? { return None; }
      var s := LookupPathMap(gw.urlPathMaps, second.pathMap.value, list);
      if s.None? || s.value == -1 { return None; }
      var ok := AbsorbPathMap(gw, f.value, s.value, list);
      if !ok { return None; }
    }
    return Some(first);
  }

  /** One round of MergeRules' loops. */
  method MergeOneRule(gw: Gateway, uniq: map<Id, Rule>, rule: Rule, ghost list: seq<Entry>)
    returns (uniq': Option<map<Id, Rule>>, ghost list': seq<Entry>)
    requires OwnCells(gw.urlPathMaps) && Shows(gw.urlPathMaps, list)
    requires forall l :: l in uniq ==> uniq[l].listener == Some(l)
    modifies gw, Cells(gw.urlPathMaps)
    ensures uniq'.Some? <==> MergeStepIn(Some(MergedList(uniq, list)), rule).Some?
    ensures uniq'.Some? ==>
      && MergeStepIn(Some(MergedList(uniq, list)), rule) == Some(MergedList(uniq'.value, list'))
      && OwnCells(gw.urlPathMaps) && Cells(gw.urlPathMaps) <= old(Cells(gw.urlPathMaps)) && Shows(gw.urlPathMaps, list')
      && (forall l :: l in uniq'.value ==> uniq'.value[l].listener == Some(l))
  {
    list' := list;
    if rule.listener.None? { return None, list; }
    var l := rule.listener.value;
    if l in uniq {
      var kept := MergeRoutingRules(gw, uniq[l], rule, list);
      if kept.None? { return None, list; }
      list' := MergePairIn(list, uniq[l], rule).value.1;
      KeptListener(list, uniq[l], rule, l);
      uniq' := Some(uniq[l := kept.value]);
    } else {
      uniq' := Some(uniq[l := rule]);
    }
  }

  lemma KeptListener(list: seq<Entry>, first: Rule, second: Rule, l: Id)
    requires first.listener == second.listener == Some(l) && MergePairIn(list, first, second).Some?
    ensures MergePairIn(list, first, second).value.0.listener == Some(l)
    decreases first.ruleType.Basic?
  {
    if first.ruleType.Basic? && second.ruleType.PathBasedRouting? { KeptListener(list, second, first, l); }
  }

  /** The rules that stay, one per listener, in map order. */
  method RulesThatStay(uniq: map<Id, Rule>) returns (merged: seq<Rule>)
    requires forall l :: l in uniq ==> uniq[l].listener == Some(l)
    ensures |merged| == |uniq|
    ensures forall i, j :: 0 <= i < j < |merged| ==> merged[i].listener != merged[j].listener
    ensures forall r :: r in merged <==> r.listener.Some? && r.listener.value in uniq && uniq[r.listener.value] == r
  {
    var order, values := ValuesInMapOrder(uniq);
    assert forall i :: 0 <= i < |values| ==> values[i].listener == Some(order[i]);
    merged := values;
    forall r: Rule | r.listener.Some? && r.listener.value in uniq && uniq[r.listener.value] == r ensures r in merged {
      var i :| 0 <= i < |order| && order[i] == r.listener.value;
      assert values[i] == r;
    }
  }

  /** The state of MergeRules' loops after the rules `done`. */
  ghost predicate MergedSoFar(list: seq<Entry>, done: seq<Rule>, uniq: map<Id, Rule>, now: seq<Entry>) {
    MergeAllIn(list, done) == Some(MergedList(uniq, now)) && forall l :: l in uniq ==> uniq[l].listener == Some(l)
  }

  lemma RuleMerged(list: seq<Entry>, done: seq<Rule>, bucket: seq<Rule>, i: nat, uniq: map<Id, Rule>, now: seq<Entry>,
                   uniq': Option<map<Id, Rule>>, now': seq<Entry>)
    requires i < |bucket| && MergedSoFar(list, done + bucket[..i], uniq, now)
    requires uniq'.Some? <==> MergeStepIn(Some(MergedList(uniq, now)), bucket[i]).Some?
    requires uniq'.Some? ==>
      && MergeStepIn(Some(MergedList(uniq, now)), bucket[i]) == Some(MergedList(uniq'.value, now'))
      && forall l :: l in uniq'.value ==> uniq'.value[l].listener == Some(l)
    ensures uniq'.Some? ==> MergedSoFar(list, done + bucket[..i + 1], uniq'.value, now')
    ensures uniq'.None? ==> MergeAllIn(list, done + bucket).None?
  {
    var before, after := done + bucket[..i], done + bucket[..i + 1];
    assert after == before + [bucket[i]];
    MergeAllInSnoc(list, before, bucket[i]);
    if uniq'.None? {
      CrashStaysOn(list, after, bucket[i + 1..]);
      assert done + bucket == after + bucket[i + 1..];
    }
  }

  /** The rules of one bucket. `None` is a nil dereference. */
  method MergeBucket(gw: Gateway, before: map<Id, Rule>, bucket: seq<Rule>, ghost list: seq<Entry>,
                     ghost done: seq<Rule>, ghost now: seq<Entry>)
    returns (uniq: Option<map<Id, Rule>>, ghost now': seq<Entry>)
    requires OwnCells(gw.urlPathMaps) && Shows(gw.urlPathMaps, now) && MergedSoFar(list, done, before, now)
    modifies gw, Cells(gw.urlPathMaps)
    ensures uniq.Some? <==> MergeAllIn(list, done + bucket).Some?
    ensures uniq.Some? ==> MergedSoFar(list, done + bucket, uniq.value, now')
    ensures uniq.Some? ==>
      OwnCells(gw.urlPathMaps) && Cells(gw.urlPathMaps) <= old(Cells(gw.urlPathMaps)) && Shows(gw.urlPathMaps, now')
  {
    var current := before;
    now' := now;
    assert done + bucket[..0] == done;
    for i := 0 to |bucket|
      invariant MergedSoFar(list, done + bucket[..i], current, now')
      invariant OwnCells(gw.urlPathMaps) && Shows(gw.urlPathMaps, now')
      invariant Cells(gw.urlPathMaps) <= old(Cells(gw.urlPathMaps))
    {
      ghost var was := now';
      var next;
      next, now' := MergeOneRule(gw, current, bucket[i], now');
      RuleMerged(list, done, bucket, i, current, was, next, now');
      if next.None? { return None, now'; }
      current := next.value;
    }
    assert bucket[..|bucket|] == bucket;
    uniq := Some(current);
  }

  /** MergeRules' loop over the buckets. `None` is a nil dereference. */
  method MergeBuckets(gw: Gateway, buckets: seq<seq<Rule>>, ghost list: seq<Entry>)
    returns (kept: Option<map<Id, Rule>>, ghost now: seq<Entry>)
    requires OwnCells(gw.urlPathMaps) && Shows(gw.urlPathMaps, list)
    modifies gw, Cells(gw.urlPathMaps)
    ensures kept.Some? <==> MergeAllIn(list, Flatten(buckets)).Some?
    ensures kept.Some? ==> MergedSoFar(list, Flatten(buckets), kept.value, now)
    ensures kept.Some? ==> OwnCells(gw.urlPathMaps) && Shows(gw.urlPathMaps, now)
    ensures kept.Some? ==> Cells(gw.urlPathMaps) <= old(Cells(gw.urlPathMaps))
  {
    var uniq: map<Id, Rule> := map[];
    now := list;
    for b := 0 to |buckets|
      invariant MergedSoFar(list, Flatten(buckets[..b]), uniq, now)
      invariant OwnCells(gw.urlPathMaps) && Shows(gw.urlPathMaps, now)
      invariant Cells(gw.urlPathMaps) <= old(Cells(gw.urlPathMaps))
    {
      FlattenSnoc(buckets, b);
      var next;
      next, now := MergeBucket(gw, uniq, buckets[b], list, Flatten(buckets[..b]), now);
      if next.None? {
        CrashStays(list, buckets, b + 1);
        return None, now;
      }
      uniq := next.value;
    }
    assert buckets[..|buckets|] == buckets;
    kept := Some(uniq);
  }

  /** MergeRules: merge the buckets' rules listener by listener; the rules that stay come back in
      map order. `None` is a nil dereference. On any list the result is that of MergeAllIn; where every
      path map has an ID of its own, MergeRefines and MergeIsExact say what that is. */
  method MergeRules(gw: Gateway, buckets: seq<seq<Rule>>, ghost list: seq<Entry>)
    returns (merged: Option<seq<Rule>>, ghost out: MergedList)
    requires OwnCells(gw.urlPathMaps) && Shows(gw.urlPathMaps, list)
    modifies gw, Cells(gw.urlPathMaps)
    ensures merged.Some? <==> MergeAllIn(list, Flatten(buckets)).Some?
    ensures merged.Some? ==>
      && MergeAllIn(list, Flatten(buckets)) == Some(out) && Shows(gw.urlPathMaps, out.list)
      && |merged.value| == |out.uniq|
      && (forall i, j :: 0 <= i < j < |merged.value| ==> merged.value[i].listener != merged.value[j].listener)
      && (forall r :: r in merged.value <==>
            r.listener.Some? && r.listener.value in out.uniq && out.uniq[r.listener.value] == r)
    ensures forall view :: Means(list, view) && WellFormed(view, Flatten(buckets)) && OwnMaps(Flatten(buckets)) ==>
      merged.Some? && ExactIn(view, Flatten(buckets), out)
  {
    var kept, now := MergeBuckets(gw, buckets, list);
    forall view | Means(list, view) && WellFormed(view, Flatten(buckets)) && OwnMaps(Flatten(buckets))
      ensures MergeAllIn(list, Flatten(buckets)).Some?
      ensures ExactIn(view, Flatten(buckets), MergeAllIn(list, Flatten(buckets)).value)
    {
      ExactInList(list, view, Flatten(buckets));
    }
    out := MergedList(map[], now);
    if kept.None? { return None, out; }
    out := MergedList(kept.value, now);
    var rules := RulesThatStay(kept.value);
    merged := Some(rules);
  }

  /** The result by ID is exact. */
  ghost predicate ExactIn(view: map<Id, Contents>, rules: seq<Rule>, out: MergedList)
    requires WellFormed(view, rules)
  {
    exists after :: Means(out.list, after) && Exact(view, rules, Merged(out.uniq, after))
  }

  lemma ExactInList(list: seq<Entry>, view: map<Id, Contents>, rules: seq<Rule>)
    requires Means(list, view) && WellFormed(view, rules) && OwnMaps(rules)
    ensures MergeAllIn(list, rules).Some? && ExactIn(view, rules, MergeAllIn(list, rules).value)
  {
    MergeRefines(list, view, rules);
    MergeIsExact(view, rules);
    var after := MergeAll(view, rules).value;
    assert after == Merged(after.uniq, after.maps);
  }

  lemma {:induction false} FlattenSplit<T>(buckets: seq<seq<T>>, b: nat)
    requires b <= |buckets|
    ensures Flatten(buckets) == Flatten(buckets[..b]) + Flatten(buckets[b..])
  {
    if b == |buckets| {
      assert buckets[..b] == buckets;
    } else {
      var n := |buckets| - 1;
      FlattenSplit(buckets[..n], b);
      assert buckets[..n][..b] == buckets[..b] && buckets[..n][b..] == buckets[b..][..n - b];
    }
  }

  lemma CrashStays(list: seq<Entry>, buckets: seq<seq<Rule>>, b: nat)
    requires b <= |buckets| && MergeAllIn(list, Flatten(buckets[..b])).None?
    ensures MergeAllIn(list, Flatten(buckets)).None?
  {
    FlattenSplit(buckets, b);
    CrashStaysOn(list, Flatten(buckets[..b]), Flatten(buckets[b..]));
  }
}
