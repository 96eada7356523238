/**
 What a prohibited rule leads to survives its merge: path maps, merged by name through their
 shared properties (pkg/brownfield/pathmaps.go), and listeners, merged by key
 (pkg/brownfield/listeners.go).
 */
module Retained {
  import opened Resources
  import opened Prohibition
  import opened Classification
  import opened ClassificationImpl
  import LM = ListenerMerging
  import RM = RuleMerging
  import RMI = RuleMergingImpl
  import PMM = PathMapMerging

  // ----------------------------------------------------------------------- path maps

  /** `er` describes the existing path maps, whose properties are the first of `props`. */
  ghost predicate Describes(er: Existing, existing: seq<RMI.PathMap>, props: seq<Props>) {
    && |existing| == |er.pathMaps| <= |props|
    && forall i :: 0 <= i < |existing| ==> existing[i].name == er.pathMaps[i].name && props[i] == er.pathMaps[i].body
  }

  /** `idx` are the positions of the hits among the first `k`, and `yes` what stands there. */
  ghost predicate Chosen<T>(hits: seq<bool>, xs: seq<T>, k: nat, yes: seq<T>, idx: seq<int>) {
    && k <= |xs| == |hits| && |yes| == |idx|
    && (forall j :: 0 <= j < |idx| ==> 0 <= idx[j] < k && yes[j] == xs[idx[j]] && hits[idx[j]])
    && (forall i, j :: 0 <= i < j < |idx| ==> idx[i] < idx[j])
    && (forall i :: 0 <= i < k && hits[i] ==> i in idx)
  }

  lemma ChosenSnoc<T>(hits: seq<bool>, xs: seq<T>, k: nat, yes: seq<T>, idx: seq<int>)
    requires Chosen(hits, xs, k, yes, idx) && k < |xs|
    ensures hits[k] ==> Chosen(hits, xs, k + 1, yes + [xs[k]], idx + [k])
    ensures !hits[k] ==> Chosen(hits, xs, k + 1, yes, idx)
  {
    var more := idx + [k];
    assert more[|idx|] == k;
    assert forall i :: i in idx ==> i in more;
  }

  /** Which existing path maps are prohibited. */
  ghost function MapHits(er: Existing): (hits: seq<bool>)
    ensures |hits| == |er.pathMaps| && forall i :: 0 <= i < |hits| ==> hits[i] == MapTest(er)(er.pathMaps[i])
  {
    seq(|er.pathMaps|, i requires 0 <= i < |er.pathMaps| => MapTest(er)(er.pathMaps[i]))
  }

  /** GetBlacklistedPathMaps on the objects. */
  method ChoosePathMaps(er: Existing, existing: seq<RMI.PathMap>)
    returns (r: Option<seq<RMI.PathMap>>, ghost idx: seq<int>)
    requires |existing| == |er.pathMaps|
    ensures r.None? <==> TargetsCrash(er)
    ensures r.Some? ==> Chosen(MapHits(er), existing, |existing|, r.value, idx)
  {
    idx := [];
    var blacklist := GetTargetBlacklist(er.prohibited);
    var targets := GetRuleToTargets(er);
    if targets.None? { return None, idx; }
    var yes;
    yes, idx := ChosenMaps(er, existing, targets.value.1, blacklist);
    return Some(yes), idx;
  }

  method ChosenMaps(er: Existing, existing: seq<RMI.PathMap>, index: Index, blacklist: seq<Targets.Target>)
    returns (yes: seq<RMI.PathMap>, ghost idx: seq<int>)
    requires |existing| == |er.pathMaps| && blacklist == Entries(er.prohibited)
    requires Gathered(index, MapKeys(er), MapParts(er), |er.rules|)
    ensures Chosen(MapHits(er), existing, |existing|, yes, idx)
  {
    yes, idx := [], [];
    ghost var hits := MapHits(er);
    for k := 0 to |existing|
      invariant Chosen(hits, existing, k, yes, idx)
    {
      ChosenSnoc(hits, existing, k, yes, idx);
      var hit := MapIsBlacklisted(er, index, blacklist, er.pathMaps[k]);
      if hit {
        yes, idx := yes + [existing[k]], idx + [k];
      }
    }
  }

  ghost predicate LedByProhibited(er: Existing, name: string) {
    exists rule :: rule in er.rules && RuleProhibited(er, rule) && LeadsTo(rule, name)
  }

  lemma HitsAreLed(er: Existing, i: nat)
    requires Regular(er) && i < |er.pathMaps|
    ensures MapHits(er)[i] <==> LedByProhibited(er, er.pathMaps[i].name)
  {
    MapProhibitedIff(er, er.pathMaps[i]);
  }

  // ----------------------------------------------------------------------- part of a list of path maps

  /** The maps of `some` are those of `all` at the positions `pos`, in order. */
  ghost predicate Part(some: seq<RMI.PathMap>, all: seq<RMI.PathMap>, pos: seq<int>) {
    && |pos| == |some|
    && (forall j :: 0 <= j < |pos| ==> 0 <= pos[j] < |all| && some[j] == all[pos[j]])
    && (forall i, j :: 0 <= i < j < |pos| ==> pos[i] < pos[j])
  }

  /** All maps of this name are there. */
  ghost predicate Whole(all: seq<RMI.PathMap>, pos: seq<int>, name: string) {
    forall p :: 0 <= p < |all| && all[p].name == name ==> p in pos
  }

  ghost predicate PartProps(some: seq<Props>, all: seq<Props>, pos: seq<int>) {
    && |some| == |pos|
    && forall j :: 0 <= j < |pos| ==> 0 <= pos[j] < |all| && some[j] == all[pos[j]]
  }

  lemma PartFirst(some: seq<RMI.PathMap>, all: seq<RMI.PathMap>, pos: seq<int>, j: nat)
    requires Part(some, all, pos) && j < |some| && Whole(all, pos, some[j].name)
    ensures PMM.First(some, j) <==> PMM.First(all, pos[j])
    ensures PMM.Alone(some, |some|, j) <==> PMM.Alone(all, |all|, pos[j])
  {
    forall p | 0 <= p < |all| && all[p].name == all[pos[j]].name ensures exists i :: 0 <= i < |pos| && pos[i] == p {
      assert p in pos;
    }
  }

  lemma PartSupplies(some: seq<RMI.PathMap>, all: seq<RMI.PathMap>, pos: seq<int>, ps: seq<Props>, pa: seq<Props>,
                     name: string, n: string, j: nat)
    requires Part(some, all, pos) && PartProps(ps, pa, pos) && |pa| == |all| && j < |some|
    ensures PMM.Gives(some, ps, |some|, name, n, j) <==> PMM.Gives(all, pa, |all|, name, n, pos[j])
  {
  }

  lemma PartLast(some: seq<RMI.PathMap>, all: seq<RMI.PathMap>, pos: seq<int>, ps: seq<Props>, pa: seq<Props>,
                 name: string, n: string, j: nat)
    requires Part(some, all, pos) && PartProps(ps, pa, pos) && |pa| == |all| && j < |some|
    requires Whole(all, pos, name) && PMM.GivesLast(some, ps, |some|, name, n, j)
    ensures PMM.GivesLast(all, pa, |all|, name, n, pos[j])
  {
    forall p | pos[j] < p < |all| ensures !PMM.Gives(all, pa, |all|, name, n, p) {
      if all[p].name == name {
        assert p in pos;
        var i :| 0 <= i < |pos| && pos[i] == p;
        assert i > j;
        PartSupplies(some, all, pos, ps, pa, name, n, i);
      }
    }
  }

  /** For a name whose maps are all there, the part has the whole's path rules. */
  lemma PartRules(some: seq<RMI.PathMap>, all: seq<RMI.PathMap>, pos: seq<int>, ps: seq<Props>, pa: seq<Props>,
                  name: string)
    requires Part(some, all, pos) && PartProps(ps, pa, pos) && |pa| == |all| && Whole(all, pos, name)
    ensures PMM.RulesNamed(some, ps, |some|, name) == PMM.RulesNamed(all, pa, |all|, name)
  {
    var a, b := PMM.RulesNamed(some, ps, |some|, name), PMM.RulesNamed(all, pa, |all|, name);
    forall n: string ensures (n in a <==> n in b) && (n in a && n in b ==> a[n] == b[n]) {
      PartRule(some, all, pos, ps, pa, name, n);
    }
  }

  lemma PartRule(some: seq<RMI.PathMap>, all: seq<RMI.PathMap>, pos: seq<int>, ps: seq<Props>, pa: seq<Props>,
                 name: string, n: string)
    requires Part(some, all, pos) && PartProps(ps, pa, pos) && |pa| == |all| && Whole(all, pos, name)
    ensures var a, b := PMM.RulesNamed(some, ps, |some|, name), PMM.RulesNamed(all, pa, |all|, name);
      (n in a <==> n in b) && (n in a && n in b ==> a[n] == b[n])
  {
    var j := PMM.RulesNamedAre(some, ps, |some|, name, n);
    var p := PMM.RulesNamedAre(all, pa, |all|, name, n);
    if j >= 0 {
      PartLast(some, all, pos, ps, pa, name, n, j);
      assert p == pos[j];
    } else if p >= 0 {
      assert p in pos;
      var i: nat :| i < |pos| && pos[i] == p;
      PartSupplies(some, all, pos, ps, pa, name, n, i);
    }
  }

  lemma PartMerged(some: seq<RMI.PathMap>, all: seq<RMI.PathMap>, pos: seq<int>, ps: seq<Props>, pa: seq<Props>,
                   j: nat, after: Props)
    requires Part(some, all, pos) && PartProps(ps, pa, pos) && |pa| == |all| && j < |some|
    requires Whole(all, pos, some[j].name) && PMM.MergedProps(some, ps, |some|, j, after)
    ensures PMM.MergedProps(all, pa, |all|, pos[j], after)
  {
    PartFirst(some, all, pos, j);
    PartRules(some, all, pos, ps, pa, some[j].name);
  }

  // ----------------------------------------------------------------------- merging the chosen maps

  /** Where the chosen and the managed maps stand among all existing and managed ones. */
  ghost function Positions(idx: seq<int>, existing: nat, managed: nat): (pos: seq<int>)
    ensures |pos| == |idx| + managed
    ensures forall j :: 0 <= j < |pos| ==> pos[j] == if j < |idx| then idx[j] else existing + j - |idx|
  {
    idx + seq(managed, j => existing + j)
  }

  lemma ChosenIsPart(hits: seq<bool>, existing: seq<RMI.PathMap>, yes: seq<RMI.PathMap>, idx: seq<int>,
                     managed: seq<RMI.PathMap>)
    requires Chosen(hits, existing, |existing|, yes, idx)
    ensures Part(yes + managed, existing + managed, Positions(idx, |existing|, |managed|))
  {
  }

  /** A name all of whose existing maps are hits is there as a whole. */
  lemma ChosenIsWhole(hits: seq<bool>, existing: seq<RMI.PathMap>, yes: seq<RMI.PathMap>, idx: seq<int>,
                      managed: seq<RMI.PathMap>, name: string)
    requires Chosen(hits, existing, |existing|, yes, idx)
    requires forall i :: 0 <= i < |existing| && existing[i].name == name ==> hits[i]
    ensures Whole(existing + managed, Positions(idx, |existing|, |managed|), name)
  {
    var all, pos := existing + managed, Positions(idx, |existing|, |managed|);
    forall p | 0 <= p < |all| && all[p].name == name ensures p in pos {
      if p < |existing| {
        assert hits[p];
        var j :| 0 <= j < |idx| && idx[j] == p;
        assert pos[j] == p;
      } else {
        assert pos[|idx| + p - |existing|] == p;
      }
    }
  }

  lemma PartCells(some: seq<RMI.PathMap>, all: seq<RMI.PathMap>, pos: seq<int>)
    requires Part(some, all, pos) && RMI.OwnCells(all)
    ensures RMI.OwnCells(some) && RMI.Cells(some) <= RMI.Cells(all)
  {
    forall c | c in RMI.Cells(some) ensures c in RMI.Cells(all) {
      var j :| 0 <= j < |some| && some[j].cell == c;
      assert all[pos[j]].cell == c;
    }
  }

  ghost function Picks(all: seq<Props>, pos: seq<int>): (some: seq<Props>)
    requires forall j :: 0 <= j < |pos| ==> 0 <= pos[j] < |all|
    ensures PartProps(some, all, pos)
  {
    seq(|pos|, j requires 0 <= j < |pos| => all[pos[j]])
  }

  lemma {:induction false} FirstOfName(maps: seq<RMI.PathMap>, j: nat) returns (f: nat)
    requires j < |maps|
    ensures f <= j && PMM.First(maps, f) && maps[f].name == maps[j].name
  {
    if k: nat :| k < j && maps[k].name == maps[j].name {
      f := FirstOfName(maps, k);
    } else {
      f := j;
    }
  }

  /** The map at position `f` stands for map `i` in the result: it is the first of its name among all
      existing and managed maps, with its own defaults and the union of the path rules of that name, the
      later map winning. */
  ghost predicate StandsFor(all: seq<RMI.PathMap>, props: seq<Props>, i: nat, f: int, after: Props)
    requires |props| == |all| && i < |all|
  {
    && 0 <= f <= i && PMM.First(all, f) && all[f].name == all[i].name
    && PMM.MergedProps(all, props, |all|, f, after)
    && (props[i].pathRules.Some? ==> after.pathRules.Some?)
    && (forall n :: PMM.Gives(all, props, |all|, all[i].name, n, i) ==> KeepsRule(all, props, i, n, after))
  }

  /** The path rule called `n` of map `i` keeps its name; it is itself unchanged exactly when the last map
      of that name to supply `n` supplies an equal rule. */
  ghost predicate KeepsRule(all: seq<RMI.PathMap>, props: seq<Props>, i: nat, n: string, after: Props)
    requires |props| == |all| && i < |all| && PMM.Gives(all, props, |all|, all[i].name, n, i)
  {
    && after.pathRules.Some? && n in RM.ByName(after.pathRules.value)
    && (RM.ByName(after.pathRules.value)[n] == RM.ByName(props[i].pathRules.value)[n] <==>
        forall j :: PMM.GivesLast(all, props, |all|, all[i].name, n, j) ==>
          RM.ByName(props[j].pathRules.value)[n] == RM.ByName(props[i].pathRules.value)[n])
  }

  lemma FirstStandsFor(all: seq<RMI.PathMap>, props: seq<Props>, i: nat, f: nat, after: Props)
    requires |props| == |all| && f <= i < |all| && PMM.First(all, f) && all[f].name == all[i].name
    requires PMM.MergedProps(all, props, |all|, f, after)
    ensures StandsFor(all, props, i, f, after)
  {
    assert f != i ==> !PMM.Alone(all, |all|, f);
    forall n | PMM.Gives(all, props, |all|, all[i].name, n, i) ensures KeepsRule(all, props, i, n, after) {
      PMM.RuleKeptIff(all, props, i, n);
    }
  }

  /** A map that is merged, kept or ours, and lacks a list of path rules shares its name with another such map. */
  ghost predicate LacksList(er: Existing, all: seq<RMI.PathMap>, props: seq<Props>)
    requires |props| == |all|
  {
    exists i, j ::
      && Merges(er, all, i) && Merges(er, all, j) && i != j
      && all[i].name == all[j].name && props[i].pathRules.None?
  }

  /** Map `i` takes part in the merge: a prohibited rule leads to it, or it is ours. */
  ghost predicate Merges(er: Existing, all: seq<RMI.PathMap>, i: int) {
    0 <= i < |all| && (i < |er.pathMaps| ==> LedByProhibited(er, all[i].name))
  }

  lemma PartMergeable(er: Existing, some: seq<RMI.PathMap>, all: seq<RMI.PathMap>, pos: seq<int>, ps: seq<Props>,
                      pa: seq<Props>)
    requires Part(some, all, pos) && PartProps(ps, pa, pos) && |pa| == |all|
    requires forall p :: p in pos <==> Merges(er, all, p)
    ensures PMM.Mergeable(some, ps, |some|) <==> !LacksList(er, all, pa)
  {
    if LacksList(er, all, pa) {
      var i, j :|
        && Merges(er, all, i) && Merges(er, all, j) && i != j
        && all[i].name == all[j].name && pa[i].pathRules.None?;
      assert i in pos && j in pos;
      var a, b :| 0 <= a < |pos| && 0 <= b < |pos| && pos[a] == i && pos[b] == j;
      assert !PMM.Alone(some, |some|, a);
    }
    if !PMM.Mergeable(some, ps, |some|) {
      var a :| 0 <= a < |some| && ps[a].pathRules.None? && !PMM.Alone(some, |some|, a);
      var b :| 0 <= b < |some| && b != a && some[b].name == some[a].name;
      assert pos[a] in pos && pos[b] in pos;
      assert Merges(er, all, pos[a]) && Merges(er, all, pos[b]);
    }
  }

  /** The positions are those of the maps that stay. */
  lemma PositionsStay(er: Existing, existing: seq<RMI.PathMap>, yes: seq<RMI.PathMap>, idx: seq<int>,
                      managed: seq<RMI.PathMap>)
    requires Regular(er) && Chosen(MapHits(er), existing, |existing|, yes, idx)
    requires forall i :: 0 <= i < |existing| ==> existing[i].name == er.pathMaps[i].name
    ensures forall i :: 0 <= i < |existing| ==> (MapHits(er)[i] <==> LedByProhibited(er, existing[i].name))
    ensures forall p :: p in Positions(idx, |existing|, |managed|) <==> Merges(er, existing + managed, p)
  {
    forall i | 0 <= i < |existing| ensures MapHits(er)[i] <==> LedByProhibited(er, existing[i].name) {
      HitsAreLed(er, i);
    }
    var all, pos := existing + managed, Positions(idx, |existing|, |managed|);
    forall p | Merges(er, all, p) ensures p in pos {
      if p < |existing| {
        var j :| 0 <= j < |idx| && idx[j] == p;
        assert pos[j] == p;
      } else {
        assert pos[|idx| + p - |existing|] == p;
      }
    }
  }

  /** MergePathMaps on the maps that stay, seen among all existing and managed ones. */
  method MergePart(er: Existing, some: seq<RMI.PathMap>, ghost all: seq<RMI.PathMap>, ghost pos: seq<int>,
                   ghost props: seq<Props>)
    returns (r: Option<seq<RMI.PathMap>>)
    requires Part(some, all, pos) && RMI.OwnCells(all) && PMM.PropsOf(all, props)
    requires forall p :: p in pos <==> Merges(er, all, p)
    modifies RMI.Cells(some)
    ensures r.None? <==> LacksList(er, all, props)
    ensures r.Some? ==> PMM.OneMapEach(some, r.value)
    ensures r.Some? ==> forall j :: 0 <= j < |some| && Whole(all, pos, some[j].name) ==>
      PMM.MergedProps(all, props, |all|, pos[j], some[j].cell.props)
  {
    PartCells(some, all, pos);
    ghost var ps := Picks(props, pos);
    assert PMM.PropsOf(some, ps) by {
      forall j | 0 <= j < |some| ensures ps[j] == some[j].cell.props {
        assert some[j] == all[pos[j]];
      }
    }
    PartMergeable(er, some, all, pos, ps, props);
    r := PMM.MergePathMaps(some, ps);
    if r.Some? {
      forall j | 0 <= j < |some| && Whole(all, pos, some[j].name)
        ensures PMM.MergedProps(all, props, |all|, pos[j], some[j].cell.props)
      {
        PartMerged(some, all, pos, ps, props, j, some[j].cell.props);
      }
    }
  }

  /** Classification and merge of the path maps in shared mode: for every existing path map that a
      prohibited rule leads to, the first of its name stands; nothing else of the existing ones stays. */
  method RetainPathMaps(er: Existing, existing: seq<RMI.PathMap>, managed: seq<RMI.PathMap>, ghost props: seq<Props>)
    returns (r: Option<seq<RMI.PathMap>>)
    requires Regular(er) && Describes(er, existing, props)
    requires RMI.OwnCells(existing + managed) && PMM.PropsOf(existing + managed, props)
    modifies RMI.Cells(existing + managed)
    ensures r.None? <==> LacksList(er, existing + managed, props)
    ensures r.Some? ==> forall i, j :: 0 <= i < j < |r.value| ==> r.value[i].name != r.value[j].name
    ensures r.Some? ==> forall i :: 0 <= i < |existing| && LedByProhibited(er, existing[i].name) ==>
      exists f ::
        && 0 <= f <= i && existing[f] in r.value
        && StandsFor(existing + managed, props, i, f, existing[f].cell.props)
    ensures r.Some? ==> forall m :: m in r.value ==> m in managed || (m in existing && LedByProhibited(er, m.name))
  {
    NoRefsCrash(er, Pool);
    var yes, idx := ChoosePathMaps(er, existing);
    ghost var all, pos := existing + managed, Positions(idx, |existing|, |managed|);
    ChosenIsPart(MapHits(er), existing, yes.value, idx, managed);
    PartCells(yes.value + managed, all, pos);
    PositionsStay(er, existing, yes.value, idx, managed);
    r := MergePart(er, yes.value + managed, all, pos, props);
    if r.None? { return; }
    forall i | 0 <= i < |existing| && LedByProhibited(er, existing[i].name)
      ensures exists f :: 0 <= f <= i && existing[f] in r.value && StandsFor(all, props, i, f, existing[f].cell.props)
    {
      ChosenIsWhole(MapHits(er), existing, yes.value, idx, managed, existing[i].name);
      var f := FirstOfName(all, i);
      assert f in pos;
      var j :| 0 <= j < |pos| && pos[j] == f;
      PartFirst(yes.value + managed, all, pos, j);
      assert existing[f] == all[f] == (yes.value + managed)[j];
      FirstStandsFor(all, props, i, f, existing[f].cell.props);
    }
    forall m | m in r.value && m !in managed ensures m in existing && LedByProhibited(er, m.name) {
      assert m in yes.value;
    }
  }

  // ----------------------------------------------------------------------- listeners

  lemma {:induction false} FirstWithConcat(a: seq<ExistingListener>, b: seq<ExistingListener>, key: LM.ListenerKey)
    ensures LM.FirstWith(a + b, key) == if LM.FirstWith(a, key).Some? then LM.FirstWith(a, key)
      else LM.FirstWith(b, key)
  {
    if b == [] {
      assert a + b == a;
    } else {
      var n := |b| - 1;
      FirstWithConcat(a, b[..n], key);
      assert (a + b)[..|a + b| - 1] == a + b[..n];
    }
  }

  /** The existing listener is prohibited, as every listener of a prohibited rule is. */
  ghost predicate ProhibitedListener(er: Existing, l: ExistingListener) {
    l in er.listeners && ListenerProhibited(er, l.name)
  }

  /** No two prohibited listeners are rivals. */
  ghost predicate KeysTellApart(er: Existing) {
    forall a, b :: ProhibitedListener(er, a) && ProhibitedListener(er, b) && LM.Rivals(a, b) ==> a == b
  }

  lemma ProhibitedFirst(yes: seq<ExistingListener>, managed: seq<ExistingListener>, merged: seq<ExistingListener>,
                        l: ExistingListener)
    returns (y: ExistingListener)
    requires forall x :: x in merged <==> LM.FirstOfRivals(yes + managed, x)
    requires l in yes
    ensures y in merged && y in yes && LM.Rivals(y, l)
    ensures l in merged <==> y == l
  {
    FirstWithConcat(yes, managed, LM.KeyOf(l));
    y := LM.FirstWith(yes, LM.KeyOf(l)).value;
    LM.FirstWithIs(yes + managed, y);
    LM.FirstWithIs(yes + managed, l);
  }

  /** A prohibited listener is kept, or another prohibited one with its host, protocol, port and address
      is: no listener of ours displaces it. */
  ghost predicate NoneDisplaced(er: Existing, merged: seq<ExistingListener>) {
    forall l {:trigger RivalStays(er, merged, l)} :: ProhibitedListener(er, l) ==> RivalStays(er, merged, l)
  }

  ghost predicate RivalStays(er: Existing, merged: seq<ExistingListener>, l: ExistingListener) {
    exists y :: y in merged && ProhibitedListener(er, y) && LM.Rivals(y, l)
  }

  ghost predicate AllStay(er: Existing, merged: seq<ExistingListener>) {
    forall l :: ProhibitedListener(er, l) ==> l in merged
  }

  ghost predicate NoOtherStays(er: Existing, managed: seq<ExistingListener>, merged: seq<ExistingListener>) {
    forall y :: y in merged ==> y in managed || ProhibitedListener(er, y)
  }

  /** All prohibited listeners are kept exactly when no two of them are rivals, and no other existing
      listener is. */
  method RetainListeners(er: Existing, managed: seq<ExistingListener>) returns (r: Option<seq<ExistingListener>>)
    ensures r.None? <==> TargetsCrash(er)
    ensures r.Some? ==> NoneDisplaced(er, r.value) && (AllStay(er, r.value) <==> KeysTellApart(er))
    ensures r.Some? ==> NoOtherStays(er, managed, r.value)
  {
    var yes := ProhibitedListeners(er);
    if yes.None? { return None; }
    var merged := MergeBehind(er, yes.value, managed);
    return Some(merged);
  }

  /** MergeListeners with the prohibited ones in front. */
  method MergeBehind(ghost er: Existing, yes: seq<ExistingListener>, managed: seq<ExistingListener>)
    returns (merged: seq<ExistingListener>)
    requires forall l :: l in yes <==> ProhibitedListener(er, l)
    ensures NoneDisplaced(er, merged) && (AllStay(er, merged) <==> KeysTellApart(er))
    ensures NoOtherStays(er, managed, merged)
  {
    merged := LM.MergeListeners([yes, managed]);
    FlattenTwo(yes, managed);
    NoneIsDisplaced(er, yes, managed, merged);
    AllStayIff(er, yes, managed, merged);
    NoOtherDoes(er, yes, managed, merged);
  }

  /** GetBlacklistedListeners: the prohibited ones. */
  method ProhibitedListeners(er: Existing) returns (r: Option<seq<ExistingListener>>)
    ensures r.None? <==> TargetsCrash(er)
    ensures r.Some? ==> forall l :: l in r.value <==> ProhibitedListener(er, l)
  {
    var names := GetBlacklistedListeners(er);
    if names.None? { return None; }
    var yes, _ := SplitByName(er.listeners, names.value);
    forall l ensures l in yes <==> ProhibitedListener(er, l) {
      WhereHas(er.listeners, NameTest(names.value), true, l);
    }
    return Some(yes);
  }

  lemma NoneIsDisplaced(er: Existing, yes: seq<ExistingListener>, managed: seq<ExistingListener>,
                        merged: seq<ExistingListener>)
    requires forall x :: x in merged <==> LM.FirstOfRivals(yes + managed, x)
    requires forall l :: l in yes <==> ProhibitedListener(er, l)
    ensures NoneDisplaced(er, merged)
  {
    forall l | ProhibitedListener(er, l) ensures RivalStays(er, merged, l) {
      var y := ProhibitedFirst(yes, managed, merged, l);
    }
  }

  lemma NoOtherDoes(er: Existing, yes: seq<ExistingListener>, managed: seq<ExistingListener>,
                    merged: seq<ExistingListener>)
    requires forall x :: x in merged <==> LM.FirstOfRivals(yes + managed, x)
    requires forall l :: l in yes <==> ProhibitedListener(er, l)
    ensures NoOtherStays(er, managed, merged)
  {
  }

  lemma AllStayIff(er: Existing, yes: seq<ExistingListener>, managed: seq<ExistingListener>,
                   merged: seq<ExistingListener>)
    requires forall x :: x in merged <==> LM.FirstOfRivals(yes + managed, x)
    requires forall l :: l in yes <==> ProhibitedListener(er, l)
    ensures AllStay(er, merged) <==> KeysTellApart(er)
  {
    if KeysTellApart(er) {
      forall l | ProhibitedListener(er, l) ensures l in merged {
        var y := ProhibitedFirst(yes, managed, merged, l);
      }
    }
    if AllStay(er, merged) {
      forall a, b | ProhibitedListener(er, a) && ProhibitedListener(er, b) && LM.Rivals(a, b) ensures a == b {
        OneOfRivals(yes + managed, a, b);
      }
    }
  }

  lemma OneOfRivals(xs: seq<ExistingListener>, a: ExistingListener, b: ExistingListener)
    requires LM.FirstOfRivals(xs, a) && LM.FirstOfRivals(xs, b) && LM.Rivals(a, b)
    ensures a == b
  {
    LM.FirstWithIs(xs, a);
    LM.FirstWithIs(xs, b);
  }
}
