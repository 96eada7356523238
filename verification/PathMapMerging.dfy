/**
 MergePathMaps: the brownfield merge of URL path maps that share a name
 (pkg/brownfield/pathmaps.go). The first map of a name is updated through its shared
 properties pointer; the later ones are read and dropped.
 */
module PathMapMerging {
  import opened Resources
  import opened Iteration
  import opened RuleMerging
  import opened RuleMergingImpl

  type Props = PathMapProps<Id>

  /** `props` are the properties the maps point at. */
  ghost predicate PropsOf(maps: seq<PathMap>, props: seq<Props>)
    reads Cells(maps)
  {
    |props| == |maps| && forall i :: 0 <= i < |maps| ==> props[i] == maps[i].cell.props
  }

  ghost predicate First(maps: seq<PathMap>, i: int) {
    0 <= i < |maps| && forall j :: 0 <= j < i ==> maps[j].name != maps[i].name
  }

  /** Among the first `k` maps only map `i` has its name. */
  ghost predicate Alone(maps: seq<PathMap>, k: nat, i: int)
    requires k <= |maps|
  {
    0 <= i < k && forall j :: 0 <= j < k && j != i ==> maps[j].name != maps[i].name
  }

  /** The union of the path rules of the maps called `n` among the first `k`, the later map winning. */
  ghost function RulesNamed(maps: seq<PathMap>, props: seq<Props>, k: nat, n: string): map<Id, PathRule<Id>>
    requires k <= |maps| == |props|
  {
    if k == 0 then map[]
    else
      var before := RulesNamed(maps, props, k - 1, n);
      if maps[k - 1].name == n && props[k - 1].pathRules.Some? then
        before + ByName(props[k - 1].pathRules.value)
      else before
  }

  /** Map `j`, among the first `k` and called `name`, has a path rule called `n`. */
  ghost predicate Gives(maps: seq<PathMap>, props: seq<Props>, k: nat, name: string, n: Id, j: int)
    requires k <= |maps| == |props|
  {
    0 <= j < k && maps[j].name == name && props[j].pathRules.Some? && n in ByName(props[j].pathRules.value)
  }

  ghost predicate GivesLast(maps: seq<PathMap>, props: seq<Props>, k: nat, name: string, n: Id, j: int)
    requires k <= |maps| == |props|
  {
    Gives(maps, props, k, name, n, j) && forall i :: j < i < k ==> !Gives(maps, props, k, name, n, i)
  }

  /** The union holds the rule of the last map that supplies the name. */
  lemma {:induction false} RulesNamedAre(maps: seq<PathMap>, props: seq<Props>, k: nat, name: string, n: Id)
    returns (j: int)
    requires k <= |maps| == |props|
    ensures n in RulesNamed(maps, props, k, name) <==> j >= 0
    ensures j >= 0 ==> GivesLast(maps, props, k, name, n, j)
    ensures j >= 0 ==> RulesNamed(maps, props, k, name)[n] == ByName(props[j].pathRules.value)[n]
    ensures j < 0 ==> forall i :: !Gives(maps, props, k, name, n, i)
  {
    if k == 0 {
      j := -1;
    } else if Gives(maps, props, k, name, n, k - 1) {
      j := k - 1;
    } else {
      j := RulesNamedAre(maps, props, k - 1, name, n);
      forall i | Gives(maps, props, k, name, n, i) ensures Gives(maps, props, k - 1, name, n, i) {}
    }
  }

  /** A map's path rule is in the union unchanged exactly when the last map of its name to supply the
      rule's name supplies an equal rule. */
  lemma {:induction false} RuleKeptIff(maps: seq<PathMap>, props: seq<Props>, i: nat, n: Id)
    requires i < |maps| == |props| && Gives(maps, props, |maps|, maps[i].name, n, i)
    ensures n in RulesNamed(maps, props, |maps|, maps[i].name)
    ensures
      RulesNamed(maps, props, |maps|, maps[i].name)[n] == ByName(props[i].pathRules.value)[n] <==>
      forall j :: GivesLast(maps, props, |maps|, maps[i].name, n, j) ==>
        ByName(props[j].pathRules.value)[n] == ByName(props[i].pathRules.value)[n]
  {
    var j := RulesNamedAre(maps, props, |maps|, maps[i].name, n);
  }

  /** So it is unchanged when no later map of its name supplies the rule's name. */
  lemma {:induction false} RuleKeptIfLast(maps: seq<PathMap>, props: seq<Props>, i: nat, n: Id)
    requires i < |maps| == |props| && GivesLast(maps, props, |maps|, maps[i].name, n, i)
    ensures n in RulesNamed(maps, props, |maps|, maps[i].name)
    ensures RulesNamed(maps, props, |maps|, maps[i].name)[n] == ByName(props[i].pathRules.value)[n]
  {
    RuleKeptIff(maps, props, i, n);
  }

  /** An existing map and one of ours with one rule each, of the same name: ours replaces the existing one,
      paths and all. */
  lemma {:induction false} PathRuleIsReplaced(
      maps: seq<PathMap>, props: seq<Props>, ours: PathRule<Id>, theirs: PathRule<Id>)
    requires |maps| == |props| == 2 && maps[0].name == maps[1].name && ours.name == theirs.name
    requires props[0].pathRules == Some([theirs]) && props[1].pathRules == Some([ours])
    ensures RulesNamed(maps, props, 2, maps[0].name) == map[ours.name := ours]
  {
    assert [theirs][..0] == [] && [ours][..0] == [];
    assert ByName([]) == map[];
    assert ByName([theirs]) == map[theirs.name := theirs] && ByName([ours]) == map[ours.name := ours];
    assert RulesNamed(maps, props, 0, maps[0].name) == map[];
    assert RulesNamed(maps, props, 1, maps[0].name) == map[theirs.name := theirs];
  }

  /** No map that shares its name lacks a list of path rules. */
  ghost predicate Mergeable(maps: seq<PathMap>, props: seq<Props>, k: nat)
    requires k <= |maps| == |props|
  {
    forall i :: 0 <= i < k && props[i].pathRules.None? ==> Alone(maps, k, i)
  }

  /** What merging the first `k` maps leaves in the properties of map `i`. */
  ghost predicate MergedProps(maps: seq<PathMap>, props: seq<Props>, k: nat, i: nat, after: Props)
    requires i < k <= |maps| == |props|
  {
    && (!First(maps, i) || Alone(maps, k, i) ==> after == props[i])
    && after == props[i].(pathRules := after.pathRules)
    && (First(maps, i) && after.pathRules.Some? ==>
          ByName(after.pathRules.value) == RulesNamed(maps, props, k, maps[i].name))
    && (First(maps, i) && !Alone(maps, k, i) ==> after.pathRules.Some? && OnePerName(after.pathRules.value))
  }

  ghost predicate OnePerName(rules: seq<PathRule<Id>>) {
    forall i, j :: 0 <= i < j < |rules| ==> rules[i].name != rules[j].name
  }

  /** `uniq` holds, for each name among the first `k` maps, the first map of that name. */
  ghost predicate Indexed(maps: seq<PathMap>, k: nat, uniq: map<string, PathMap>)
    requires k <= |maps|
  {
    && (forall i :: 0 <= i < k ==> maps[i].name in uniq)
    && (forall n :: n in uniq ==> exists i :: First(maps, i) && i < k && maps[i].name == n && uniq[n] == maps[i])
  }

  lemma {:induction false} RulesNamedNone(maps: seq<PathMap>, props: seq<Props>, k: nat, n: string)
    requires k <= |maps| == |props| && forall i :: 0 <= i < k ==> maps[i].name != n
    ensures RulesNamed(maps, props, k, n) == map[]
  {
    if k != 0 {
      RulesNamedNone(maps, props, k - 1, n);
    }
  }

  /** The next map has a new name. */
  lemma NextIsNew(maps: seq<PathMap>, props: seq<Props>, k: nat, i: nat, after: Props)
    requires k < |maps| == |props| && i <= k
    requires forall j :: 0 <= j < k ==> maps[j].name != maps[k].name
    requires i < k ==> MergedProps(maps, props, k, i, after)
    requires i == k ==> after == props[k]
    ensures MergedProps(maps, props, k + 1, i, after)
  {
    if i < k {
      assert Alone(maps, k + 1, i) <==> Alone(maps, k, i);
    } else {
      RulesNamedNone(maps, props, k, maps[k].name);
    }
  }

  /** The next map has the name of the earlier first map `f`; `merged` is what `f` now holds. */
  lemma NextIsKnown(maps: seq<PathMap>, props: seq<Props>, k: nat, f: nat, merged: seq<PathRule<Id>>, i: nat,
                    before: Props, after: Props)
    requires k < |maps| == |props| && f < k && i <= k
    requires First(maps, f) && maps[f].name == maps[k].name && props[k].pathRules.Some? && OnePerName(merged)
    requires i < k ==> MergedProps(maps, props, k, i, before)
    requires i == k ==> before == props[k]
    requires i == f ==>
      before.pathRules.Some? && ByName(merged) == ByName(before.pathRules.value) + ByName(props[k].pathRules.value)
    requires after == if i == f then before.(pathRules := Some(merged)) else before
    ensures MergedProps(maps, props, k + 1, i, after)
  {
    if i == k {
      assert !First(maps, k);
    } else if i != f && First(maps, i) {
      assert maps[i].name != maps[f].name by {
        if i < f { } else { }
      }
      assert Alone(maps, k + 1, i) <==> Alone(maps, k, i);
    } else if i == f {
      assert !Alone(maps, k + 1, f);
    }
  }

  /** The state of the merge after the first `k` maps. */
  ghost predicate Sofar(all: seq<PathMap>, props: seq<Props>, k: nat, uniq: map<string, PathMap>)
    requires k <= |all| == |props|
    reads Cells(all)
  {
    && Indexed(all, k, uniq) && Mergeable(all, props, k)
    && (forall i :: 0 <= i < k ==> MergedProps(all, props, k, i, all[i].cell.props))
    && (forall i :: k <= i < |all| ==> all[i].cell.props == props[i])
  }

  /** Map `k` joins the first map of its name, through that map's properties pointer. */
  method MergeIntoFirst(all: seq<PathMap>, ghost props: seq<Props>, k: nat, uniq: map<string, PathMap>)
    returns (ok: bool)
    requires k < |all| == |props| && OwnCells(all) && Sofar(all, props, k, uniq)
    requires all[k].name in uniq
    modifies Cells(all)
    ensures ok ==> Sofar(all, props, k + 1, uniq)
    ensures !ok ==> !Mergeable(all, props, |all|)
  {
    ghost var f :| First(all, f) && f < k && all[f].name == all[k].name && uniq[all[k].name] == all[f];
    var cell := uniq[all[k].name].cell;
    assert cell in Cells(all) && cell == all[f].cell;
    var before := cell.props;
    if before.pathRules.None? || all[k].cell.props.pathRules.None? {
      assert all[f].name == all[k].name && !Alone(all, |all|, f) && !Alone(all, |all|, k);
      assert before.pathRules.None? ==> props[f].pathRules.None?;
      return false;
    }
    TwoBuckets(cell.props.pathRules.value, all[k].cell.props.pathRules.value);
    var rules := MergePathRules([cell.props.pathRules.value, all[k].cell.props.pathRules.value]);
    label L:
    cell.props := cell.props.(pathRules := Some(rules));
    forall i | 0 <= i <= k ensures MergedProps(all, props, k + 1, i, all[i].cell.props) {
      NextIsKnown(all, props, k, f, rules, i, old@L(all[i].cell.props), all[i].cell.props);
    }
    KnownIsMergeable(all, props, k, f);
    return true;
  }

  lemma KnownIsMergeable(all: seq<PathMap>, props: seq<Props>, k: nat, f: nat)
    requires f < k < |all| == |props| && Mergeable(all, props, k) && First(all, f) && all[f].name == all[k].name
    requires props[f].pathRules.Some? && props[k].pathRules.Some?
    ensures Mergeable(all, props, k + 1)
  {
    forall i | 0 <= i <= k && props[i].pathRules.None? ensures Alone(all, k + 1, i) {
      assert Alone(all, k, i) && i != f;
      assert all[f].name != all[i].name;
    }
  }

  lemma NewIsMergeable(all: seq<PathMap>, props: seq<Props>, k: nat, uniq: map<string, PathMap>)
    requires k < |all| == |props| && Mergeable(all, props, k) && Indexed(all, k, uniq) && all[k].name !in uniq
    ensures Mergeable(all, props, k + 1) && Indexed(all, k + 1, uniq[all[k].name := all[k]])
  {
    forall i | 0 <= i < k && props[i].pathRules.None? ensures Alone(all, k + 1, i) {
      assert Alone(all, k, i);
    }
    var uniq' := uniq[all[k].name := all[k]];
    assert First(all, k);
    forall n | n in uniq' ensures exists i :: First(all, i) && i < k + 1 && all[i].name == n && uniq'[n] == all[i] {
      if n != all[k].name {
        var i :| First(all, i) && i < k && all[i].name == n && uniq[n] == all[i];
      }
    }
  }

  lemma NewName(all: seq<PathMap>, props: seq<Props>, k: nat, uniq: map<string, PathMap>)
    requires k < |all| == |props| && Sofar(all, props, k, uniq) && all[k].name !in uniq
    ensures Sofar(all, props, k + 1, uniq[all[k].name := all[k]])
  {
    forall i | 0 <= i <= k ensures MergedProps(all, props, k + 1, i, all[i].cell.props) {
      NextIsNew(all, props, k, i, all[i].cell.props);
    }
    NewIsMergeable(all, props, k, uniq);
  }

  /** The result holds exactly the first map of each name, each once. */
  ghost predicate OneMapEach(all: seq<PathMap>, merged: seq<PathMap>) {
    && (forall i, j :: 0 <= i < j < |merged| ==> merged[i].name != merged[j].name)
    && (forall i :: First(all, i) ==> all[i] in merged)
    && (forall j :: 0 <= j < |merged| ==> exists i :: First(all, i) && all[i] == merged[j])
  }

  method MapsInMapOrder(ghost all: seq<PathMap>, uniq: map<string, PathMap>) returns (merged: seq<PathMap>)
    requires Indexed(all, |all|, uniq)
    ensures OneMapEach(all, merged)
  {
    var order, values := ValuesInMapOrder(uniq);
    merged := values;
    forall j | 0 <= j < |merged|
      ensures merged[j].name == order[j] && exists i :: First(all, i) && all[i] == merged[j]
    {
      var i :| First(all, i) && i < |all| && all[i].name == order[j] && uniq[order[j]] == all[i];
    }
    forall i | First(all, i) ensures all[i] in merged {
      var f :| First(all, f) && f < |all| && all[f].name == all[i].name && uniq[all[i].name] == all[f];
      assert f == i;
      var j :| 0 <= j < |order| && order[j] == all[i].name;
      assert values[j] == all[i];
    }
  }

  /** MergePathMaps over the maps of all buckets, one bucket after the other: one map per name, in
      map order. `None` is a nil dereference. */
  method MergePathMaps(all: seq<PathMap>, ghost props: seq<Props>) returns (merged: Option<seq<PathMap>>)
    requires OwnCells(all) && PropsOf(all, props)
    modifies Cells(all)
    ensures merged.Some? <==> Mergeable(all, props, |all|)
    ensures merged.Some? ==>
      && OneMapEach(all, merged.value)
      && (forall i :: 0 <= i < |all| ==> MergedProps(all, props, |all|, i, all[i].cell.props))
  {
    var uniq: map<string, PathMap> := map[];
    for k := 0 to |all|
      invariant Sofar(all, props, k, uniq)
    {
      if all[k].name in uniq {
        var ok := MergeIntoFirst(all, props, k, uniq);
        if !ok { return None; }
      } else {
        NewName(all, props, k, uniq);
        uniq := uniq[all[k].name := all[k]];
      }
    }
    var maps := MapsInMapOrder(all, uniq);
    merged := Some(maps);
  }
}
