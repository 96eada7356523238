/**
 Brownfield merging of routing rules that share a listener, on values
 (pkg/brownfield/routing_rules.go, pkg/brownfield/pathmaps.go).

 The gateway's path maps live on the heap: a path map holds a pointer to its
 properties, and merging writes through that pointer. What the gateway means is a
 finite map from path-map ID to `Contents`; `MergeAll` is the merge on such maps.
 `None` stands for the nil dereference that crashes the controller.
 */
module RuleMerging {
  import opened Resources

  type Id = string
  type Rule = RoutingRule<Id>

  /** A path map's properties with its path rules indexed by name. */
  datatype Contents = Contents(
    pool: Option<Id>,
    settings: Option<Id>,
    redirect: Option<Id>,
    rewrite: Option<Id>,
    rules: Option<map<Id, PathRule<Id>>>
  )

  /** Path rules by name; of two rules with one name the later stays. */
  function ByName(rules: seq<PathRule<Id>>): map<Id, PathRule<Id>> {
    if rules == [] then map[]
    else ByName(rules[..|rules| - 1])[rules[|rules| - 1].name := rules[|rules| - 1]]
  }

  lemma {:induction false} ByNameConcat(a: seq<PathRule<Id>>, b: seq<PathRule<Id>>)
    ensures ByName(a + b) == ByName(a) + ByName(b)
  {
    if b == [] {
      assert a + b == a;
    } else {
      ByNameConcat(a, b[..|b| - 1]);
      assert (a + b)[..|a + b| - 1] == a + b[..|b| - 1];
    }
  }

  function View(p: PathMapProps<Id>): Contents {
    Contents(p.pool, p.settings, p.redirect, p.rewrite,
             if p.pathRules.None? then None else Some(ByName(p.pathRules.value)))
  }

  // ---------------------------------------------------------------- the merge on values

  function Absorb(first: Contents, second: Contents): Contents
    requires first.rules.Some? && second.rules.Some?
  {
    first.(rules := Some(first.rules.value + second.rules.value))
  }

  function WithDefaults(c: Contents, r: Rule): Contents {
    Contents(r.pool, r.settings, r.redirect, r.rewrite, c.rules)
  }

  datatype Merged = Merged(uniq: map<Id, Rule>, maps: map<Id, Contents>)

  ghost predicate HasMap(maps: map<Id, Contents>, r: Rule) {
    r.pathMap.Some? && r.pathMap.value in maps
  }

  ghost function MergePair(maps: map<Id, Contents>, first: Rule, second: Rule): Option<(Rule, map<Id, Contents>)>
    decreases first.ruleType.Basic?
  {
    if first.ruleType.Basic? && second.ruleType.PathBasedRouting? then
      MergePair(maps, second, first)
    else if first.ruleType.Basic? then
      Some((first, maps))
    else if !HasMap(maps, first) then
      None
    else if second.ruleType.Basic? then
      Some((first, maps[first.pathMap.value := WithDefaults(maps[first.pathMap.value], second)]))
    else if !HasMap(maps, second) then
      None
    else
      var a, b := maps[first.pathMap.value], maps[second.pathMap.value];
      if a.rules.None? || b.rules.None? then
        None
      else
        Some((first, maps[first.pathMap.value := Absorb(a, b)] - {second.pathMap.value}))
  }

  ghost function MergeStep(st: Option<Merged>, r: Rule): Option<Merged> {
    if st.None? || r.listener.None? then
      None
    else
      var Merged(uniq, maps) := st.value;
      if r.listener.value !in uniq then
        Some(Merged(uniq[r.listener.value := r], maps))
      else
        match MergePair(maps, uniq[r.listener.value], r)
        case None => None
        case Some((kept, maps')) => Some(Merged(uniq[r.listener.value := kept], maps'))
  }

  /** Merging a list of rules into the path maps `maps`, from the first rule on. */
  ghost function MergeAll(maps: map<Id, Contents>, rules: seq<Rule>): Option<Merged> {
    if rules == [] then Some(Merged(map[], maps))
    else MergeStep(MergeAll(maps, rules[..|rules| - 1]), rules[|rules| - 1])
  }

  // ---------------------------------------------------------------- what the merge must be

  ghost predicate Of(rules: seq<Rule>, i: int, l: Id) {
    0 <= i < |rules| && rules[i].listener == Some(l)
  }

  /** Rule `i` is a path-based rule of listener `l`. */
  ghost predicate PathBasedOf(rules: seq<Rule>, i: int, l: Id) {
    Of(rules, i, l) && rules[i].ruleType.PathBasedRouting?
  }

  /** Rule `i` is a basic rule of listener `l`. */
  ghost predicate BasicOf(rules: seq<Rule>, i: int, l: Id) {
    Of(rules, i, l) && rules[i].ruleType.Basic?
  }

  /** Rule `i` is the first path-based rule of listener `l`. */
  ghost predicate Leader(rules: seq<Rule>, i: int, l: Id) {
    PathBasedOf(rules, i, l) && forall j :: PathBasedOf(rules, j, l) ==> i <= j
  }

  /** Rule `i` is path-based but not the first such rule of listener `l`. */
  ghost predicate Follower(rules: seq<Rule>, i: int, l: Id) {
    PathBasedOf(rules, i, l) && exists j :: PathBasedOf(rules, j, l) && j < i
  }

  /** The rule that stays for listener `l`: its leader or, without path-based rules, its first rule. */
  ghost predicate Stays(rules: seq<Rule>, i: int, l: Id) {
    || Leader(rules, i, l)
    || (BasicOf(rules, i, l) && forall j :: Of(rules, j, l) ==> i <= j && !PathBasedOf(rules, j, l))
  }

  /** The basic rule that supplies the defaults of the listener whose leader is `f`: the last
      one after the leader; failing that the first one before it. */
  ghost predicate DefaultsFrom(rules: seq<Rule>, f: int, k: int, l: Id) {
    && BasicOf(rules, k, l)
    && (f < k ==> forall j :: BasicOf(rules, j, l) ==> j <= k)
    && (k <= f ==> forall j :: BasicOf(rules, j, l) ==> k <= j < f)
  }

  /** What the merge is given: every rule has a listener, path-based rules point at existing
      maps, and every map carries a list of path rules. */
  ghost predicate WellFormed(maps: map<Id, Contents>, rules: seq<Rule>) {
    && (forall i :: 0 <= i < |rules| ==> rules[i].listener.Some?)
    && (forall i :: 0 <= i < |rules| && rules[i].ruleType.PathBasedRouting? ==> HasMap(maps, rules[i]))
    && (forall m :: m in maps ==> maps[m].rules.Some?)
  }

  /** Path-based rules refer to pairwise distinct maps. */
  ghost predicate OwnMaps(rules: seq<Rule>) {
    forall i, j :: 0 <= i < j < |rules|
                   && rules[i].ruleType.PathBasedRouting? && rules[j].ruleType.PathBasedRouting?
                   ==> rules[i].pathMap != rules[j].pathMap
  }

  /** One rule per listener, and it is the one that stays. */
  ghost predicate OneRuleEach(rules: seq<Rule>, uniq: map<Id, Rule>) {
    && (forall i :: 0 <= i < |rules| && rules[i].listener.Some? ==> rules[i].listener.value in uniq)
    && (forall l :: l in uniq ==> exists i :: Stays(rules, i, l) && uniq[l] == rules[i])
  }

  /** Exactly the maps of followers are gone. */
  ghost predicate OnlyFollowersDeleted(maps: map<Id, Contents>, rules: seq<Rule>, after: map<Id, Contents>) {
    && after.Keys <= maps.Keys
    && (forall m :: m in maps ==>
          (m !in after <==> exists i, l :: Follower(rules, i, l) && rules[i].pathMap == Some(m)))
  }

  /** The rule named `n` of the map of path-based rule `i`. */
  ghost predicate Supplies(maps: map<Id, Contents>, rules: seq<Rule>, i: int, l: Id, n: Id) {
    && PathBasedOf(rules, i, l)
    && HasMap(maps, rules[i])
    && maps[rules[i].pathMap.value].rules.Some?
    && n in maps[rules[i].pathMap.value].rules.value
  }

  /** The path rules in the map of leader `f` are the union over all path-based rules of the
      listener, the last supplier of a name winning. */
  ghost predicate UnionOfRules(maps: map<Id, Contents>, rules: seq<Rule>, l: Id, c: Contents) {
    && c.rules.Some?
    && (forall n :: n in c.rules.value <==> exists i :: Supplies(maps, rules, i, l, n))
    && (forall i, n :: Supplies(maps, rules, i, l, n) && (forall j :: Supplies(maps, rules, j, l, n) ==> j <= i)
                       ==> c.rules.value[n] == maps[rules[i].pathMap.value].rules.value[n])
  }

  /** The four defaults are those of the basic rule. */
  ghost predicate HasDefaultsOf(c: Contents, r: Rule) {
    && c.pool == r.pool
    && c.settings == r.settings
    && c.redirect == r.redirect
    && c.rewrite == r.rewrite
  }

  /** The defaults in the map of leader `f`: those of the deciding basic rule, else its own. */
  ghost predicate DefaultsOf(maps: map<Id, Contents>, rules: seq<Rule>, f: int, l: Id, c: Contents)
    requires PathBasedOf(rules, f, l) && HasMap(maps, rules[f])
  {
    && (forall k :: DefaultsFrom(rules, f, k, l) ==> HasDefaultsOf(c, rules[k]))
    && ((forall k :: !BasicOf(rules, k, l)) ==> c == maps[rules[f].pathMap.value].(rules := c.rules))
  }

  ghost predicate LeadersMerged(maps: map<Id, Contents>, rules: seq<Rule>, after: map<Id, Contents>)
    requires WellFormed(maps, rules)
  {
    forall f, l :: Leader(rules, f, l) ==>
      && HasMap(after, rules[f])
      && UnionOfRules(maps, rules, l, after[rules[f].pathMap.value])
      && DefaultsOf(maps, rules, f, l, after[rules[f].pathMap.value])
  }

  /** Maps no path-based rule points at are untouched. */
  ghost predicate OthersUntouched(maps: map<Id, Contents>, rules: seq<Rule>, after: map<Id, Contents>) {
    forall m :: m in maps && (forall i, l :: PathBasedOf(rules, i, l) ==> rules[i].pathMap != Some(m)) ==>
      m in after && after[m] == maps[m]
  }

  ghost predicate Exact(maps: map<Id, Contents>, rules: seq<Rule>, out: Merged)
    requires WellFormed(maps, rules)
  {
    && OneRuleEach(rules, out.uniq)
    && OnlyFollowersDeleted(maps, rules, out.maps)
    && LeadersMerged(maps, rules, out.maps)
    && OthersUntouched(maps, rules, out.maps)
  }

  // ---------------------------------------------------------------- the merge is exact

  lemma Snoc(p: seq<Rule>, r: Rule, l: Id)
    ensures forall i :: Of(p + [r], i, l) <==> Of(p, i, l) || (i == |p| && r.listener == Some(l))
    ensures forall i :: PathBasedOf(p + [r], i, l) <==>
      PathBasedOf(p, i, l) || (i == |p| && r.listener == Some(l) && r.ruleType.PathBasedRouting?)
    ensures forall i :: BasicOf(p + [r], i, l) <==>
      BasicOf(p, i, l) || (i == |p| && r.listener == Some(l) && r.ruleType.Basic?)
  {
  }

  lemma SnocUniq(p: seq<Rule>, r: Rule, l: Id, uniq: map<Id, Rule>, kept: Rule)
    requires OneRuleEach(p, uniq) && r.listener == Some(l)
    requires l !in uniq ==> kept == r
    requires l in uniq ==> kept == if uniq[l].ruleType.Basic? && r.ruleType.PathBasedRouting? then r else uniq[l]
    ensures OneRuleEach(p + [r], uniq[l := kept])
  {
    var rs, uniq' := p + [r], uniq[l := kept];
    forall l' | l' in uniq' ensures exists i :: Stays(rs, i, l') && uniq'[l'] == rs[i] {
      if l' != l {
        var i :| Stays(p, i, l') && uniq[l'] == p[i];
        StaysElsewhere(p, r, l', i);
      } else if l !in uniq {
        Snoc(p, r, l);
        assert forall i :: !Of(p, i, l);
        assert Stays(rs, |p|, l);
      } else {
        var i :| Stays(p, i, l) && uniq[l] == p[i];
        StaysHere(p, r, l, i);
      }
    }
  }

  /** A rule of another listener changes nothing for this one. */
  lemma StaysElsewhere(p: seq<Rule>, r: Rule, l: Id, i: int)
    requires Stays(p, i, l) && r.listener != Some(l)
    ensures Stays(p + [r], i, l) && (p + [r])[i] == p[i]
  {
    Snoc(p, r, l);
  }

  /** A further rule of the listener: it stays instead if it is the first path-based one. */
  lemma StaysHere(p: seq<Rule>, r: Rule, l: Id, i: int)
    requires Stays(p, i, l) && r.listener == Some(l)
    ensures (p + [r])[i] == p[i] && (p + [r])[|p|] == r
    ensures if p[i].ruleType.Basic? && r.ruleType.PathBasedRouting? then Stays(p + [r], |p|, l)
      else Stays(p + [r], i, l)
  {
    Snoc(p, r, l);
  }

  /** The map of a path-based rule is untouched until the rule's turn comes. */
  lemma FreshMap(maps: map<Id, Contents>, p: seq<Rule>, r: Rule, out: Merged)
    requires WellFormed(maps, p + [r]) && OwnMaps(p + [r]) && WellFormed(maps, p) && Exact(maps, p, out)
    requires r.ruleType.PathBasedRouting?
    ensures HasMap(maps, r) && HasMap(out.maps, r) && out.maps[r.pathMap.value] == maps[r.pathMap.value]
    ensures forall i, l :: PathBasedOf(p, i, l) ==> p[i].pathMap != r.pathMap
  {
    var rs := p + [r];
    assert rs[|p|] == r;
    forall i, l | PathBasedOf(p, i, l) ensures p[i].pathMap != r.pathMap {
      assert rs[i] == p[i];
    }
  }

  /** A rule of another listener changes nothing for listener `l`. */
  lemma OtherListener(maps: map<Id, Contents>, p: seq<Rule>, r: Rule, f: int, l: Id, c: Contents)
    requires WellFormed(maps, p + [r]) && WellFormed(maps, p)
    requires r.listener != Some(l) && Leader(p, f, l)
    requires UnionOfRules(maps, p, l, c) && DefaultsOf(maps, p, f, l, c)
    ensures Leader(p + [r], f, l)
    ensures UnionOfRules(maps, p + [r], l, c) && DefaultsOf(maps, p + [r], f, l, c)
  {
    var rs := p + [r];
    Snoc(p, r, l);
    assert forall i, n :: Supplies(maps, rs, i, l, n) <==> Supplies(maps, p, i, l, n);
    assert forall k :: DefaultsFrom(rs, f, k, l) <==> DefaultsFrom(p, f, k, l);
  }

  /** A new leader: its map is its own, with the defaults of the basic rule that stayed before it. */
  lemma NewLeader(maps: map<Id, Contents>, p: seq<Rule>, r: Rule, l: Id, uniq: map<Id, Rule>, c: Contents)
    requires WellFormed(maps, p + [r]) && WellFormed(maps, p)
    requires OneRuleEach(p, uniq)
    requires r.listener == Some(l) && r.ruleType.PathBasedRouting?
    requires l !in uniq || uniq[l].ruleType.Basic?
    requires var own := maps[(p + [r])[|p|].pathMap.value];
             c == if l in uniq then WithDefaults(own, uniq[l]) else own
    ensures Leader(p + [r], |p|, l)
    ensures UnionOfRules(maps, p + [r], l, c) && DefaultsOf(maps, p + [r], |p|, l, c)
  {
    var rs := p + [r];
    Snoc(p, r, l);
    assert rs[|p|] == r;
    if l in uniq {
      var i :| Stays(p, i, l) && uniq[l] == p[i];
      assert BasicOf(rs, i, l);
    } else {
      assert forall i :: !Of(p, i, l);
    }
    NewUnion(maps, p, r, l, c);
  }

  lemma NewUnion(maps: map<Id, Contents>, p: seq<Rule>, r: Rule, l: Id, c: Contents)
    requires (forall i :: !PathBasedOf(p, i, l)) && r.listener == Some(l) && r.ruleType.PathBasedRouting?
    requires HasMap(maps, r) && maps[r.pathMap.value].rules.Some? && c.rules == maps[r.pathMap.value].rules
    ensures UnionOfRules(maps, p + [r], l, c)
  {
    var rs, own := p + [r], maps[r.pathMap.value].rules.value;
    assert rs[|p|] == r;
    forall i, n ensures Supplies(maps, rs, i, l, n) <==> i == |p| && n in own {
      if 0 <= i < |p| { assert rs[i] == p[i] && !PathBasedOf(p, i, l); }
    }
    forall n | n in own ensures exists i :: Supplies(maps, rs, i, l, n) {
      assert Supplies(maps, rs, |p|, l, n);
    }
  }

  lemma LaterBasic(maps: map<Id, Contents>, p: seq<Rule>, r: Rule, f: int, l: Id, c: Contents)
    requires WellFormed(maps, p + [r]) && WellFormed(maps, p)
    requires r.listener == Some(l) && r.ruleType.Basic?
    requires Leader(p, f, l) && UnionOfRules(maps, p, l, c)
    ensures Leader(p + [r], f, l)
    ensures UnionOfRules(maps, p + [r], l, WithDefaults(c, r)) && DefaultsOf(maps, p + [r], f, l, WithDefaults(c, r))
  {
    var rs := p + [r];
    Snoc(p, r, l);
    assert forall i, n :: Supplies(maps, rs, i, l, n) <==> Supplies(maps, p, i, l, n);
    assert BasicOf(rs, |p|, l);
    assert forall k :: DefaultsFrom(rs, f, k, l) ==> k == |p|;
  }

  lemma LaterPath(maps: map<Id, Contents>, p: seq<Rule>, r: Rule, f: int, l: Id, c: Contents)
    requires WellFormed(maps, p + [r]) && WellFormed(maps, p)
    requires r.listener == Some(l) && r.ruleType.PathBasedRouting?
    requires Leader(p, f, l) && UnionOfRules(maps, p, l, c) && DefaultsOf(maps, p, f, l, c)
    requires HasMap(maps, r) && maps[r.pathMap.value].rules.Some?
    ensures Leader(p + [r], f, l)
    ensures var c' := Absorb(c, maps[r.pathMap.value]);
            UnionOfRules(maps, p + [r], l, c') && DefaultsOf(maps, p + [r], f, l, c')
  {
    Snoc(p, r, l);
    LaterUnion(maps, p, r, l, c);
    assert forall k :: DefaultsFrom(p + [r], f, k, l) <==> DefaultsFrom(p, f, k, l);
  }

  /** Absorbing the map of one more path-based rule takes in its path rules. */
  lemma LaterUnion(maps: map<Id, Contents>, p: seq<Rule>, r: Rule, l: Id, c: Contents)
    requires r.listener == Some(l) && r.ruleType.PathBasedRouting? && UnionOfRules(maps, p, l, c)
    requires HasMap(maps, r) && maps[r.pathMap.value].rules.Some?
    ensures UnionOfRules(maps, p + [r], l, Absorb(c, maps[r.pathMap.value]))
  {
    var rs, own := p + [r], maps[r.pathMap.value].rules.value;
    var all := c.rules.value + own;
    LaterSupplies(maps, p, r, l);
    forall n ensures n in all <==> exists i :: Supplies(maps, rs, i, l, n) {
      if n in own { assert Supplies(maps, rs, |p|, l, n); }
    }
    forall i, n | Supplies(maps, rs, i, l, n) && (forall j :: Supplies(maps, rs, j, l, n) ==> j <= i)
      ensures all[n] == maps[rs[i].pathMap.value].rules.value[n]
    {
      if n in own {
        assert Supplies(maps, rs, |p|, l, n);
        assert i == |p|;
      } else {
        assert Supplies(maps, p, i, l, n) && rs[i] == p[i];
      }
    }
  }

  lemma LaterSupplies(maps: map<Id, Contents>, p: seq<Rule>, r: Rule, l: Id)
    requires r.listener == Some(l) && r.ruleType.PathBasedRouting?
    requires HasMap(maps, r) && maps[r.pathMap.value].rules.Some?
    ensures forall i, n :: Supplies(maps, p + [r], i, l, n) <==>
      Supplies(maps, p, i, l, n) || (i == |p| && n in maps[r.pathMap.value].rules.value)
  {
    Snoc(p, r, l);
  }

  /** What one step may do to the maps, seen from outside the listener at hand: `lead` is the
      index of the rule whose map is rewritten, and only the map of `r` may go. */
  ghost predicate StepOnMaps(maps: map<Id, Contents>, p: seq<Rule>, r: Rule, l: Id, before: map<Id, Contents>,
                             after: map<Id, Contents>)
    requires WellFormed(maps, p + [r])
  {
    var rs := p + [r];
    && (forall f :: Leader(rs, f, l) ==>
          && HasMap(after, rs[f])
          && UnionOfRules(maps, rs, l, after[rs[f].pathMap.value])
          && DefaultsOf(maps, rs, f, l, after[rs[f].pathMap.value]))
    && after.Keys == (if Follower(rs, |p|, l) then before.Keys - {rs[|p|].pathMap.value} else before.Keys)
    && (forall m :: m in after && (forall i :: PathBasedOf(rs, i, l) ==> rs[i].pathMap != Some(m)) ==>
          after[m] == before[m])
  }

  /** `l` had no path-based rule before `r`; `r` adds its map, or is basic and adds nothing. */
  lemma StepWithoutLeader(maps: map<Id, Contents>, p: seq<Rule>, r: Rule, l: Id, out: Merged, after: map<Id, Contents>)
    requires WellFormed(maps, p + [r]) && OwnMaps(p + [r]) && WellFormed(maps, p) && Exact(maps, p, out)
    requires r.listener == Some(l)
    requires l !in out.uniq || out.uniq[l].ruleType.Basic?
    requires r.ruleType.Basic? ==> after == out.maps
    requires r.ruleType.PathBasedRouting? && l !in out.uniq ==> after == out.maps
    requires r.ruleType.PathBasedRouting? && l in out.uniq ==>
      HasMap(out.maps, r) && after == out.maps[r.pathMap.value := WithDefaults(out.maps[r.pathMap.value], out.uniq[l])]
    ensures StepOnMaps(maps, p, r, l, out.maps, after)
  {
    var rs := p + [r];
    assert rs[|p|] == r;
    Snoc(p, r, l);
    assert forall i :: !PathBasedOf(p, i, l) by {
      if l in out.uniq {
        var i :| Stays(p, i, l) && out.uniq[l] == p[i];
      }
    }
    assert !Follower(rs, |p|, l);
    if r.ruleType.PathBasedRouting? {
      FreshMap(maps, p, r, out);
      NewLeader(maps, p, r, l, out.uniq, after[r.pathMap.value]);
      assert forall f :: Leader(rs, f, l) ==> f == |p|;
      assert PathBasedOf(rs, |p|, l);
    }
  }

  lemma BasicMeetsLeader(maps: map<Id, Contents>, p: seq<Rule>, r: Rule, f: int, l: Id, before: map<Id, Contents>)
    requires WellFormed(maps, p + [r]) && WellFormed(maps, p)
    requires r.listener == Some(l) && r.ruleType.Basic? && Leader(p, f, l)
    requires HasMap(before, p[f]) && UnionOfRules(maps, p, l, before[p[f].pathMap.value])
    ensures StepOnMaps(maps, p, r, l, before, before[p[f].pathMap.value := WithDefaults(before[p[f].pathMap.value], r)])
  {
    var rs := p + [r];
    assert rs[|p|] == r && rs[f] == p[f];
    Snoc(p, r, l);
    assert forall f' :: Leader(rs, f', l) ==> f' == f;
    assert PathBasedOf(rs, f, l);
    LaterBasic(maps, p, r, f, l, before[p[f].pathMap.value]);
  }

  lemma PathMeetsLeader(maps: map<Id, Contents>, p: seq<Rule>, r: Rule, f: int, l: Id, before: map<Id, Contents>)
    requires WellFormed(maps, p + [r]) && WellFormed(maps, p)
    requires r.listener == Some(l) && r.ruleType.PathBasedRouting? && Leader(p, f, l)
    requires HasMap(before, p[f]) && p[f].pathMap != r.pathMap
    requires UnionOfRules(maps, p, l, before[p[f].pathMap.value])
    requires DefaultsOf(maps, p, f, l, before[p[f].pathMap.value])
    requires HasMap(maps, r) && HasMap(before, r) && before[r.pathMap.value] == maps[r.pathMap.value]
    requires maps[r.pathMap.value].rules.Some?
    ensures var own, other := p[f].pathMap.value, r.pathMap.value;
      StepOnMaps(maps, p, r, l, before, before[own := Absorb(before[own], before[other])] - {other})
  {
    var rs := p + [r];
    assert rs[|p|] == r && rs[f] == p[f];
    Snoc(p, r, l);
    var first, second := p[f].pathMap.value, r.pathMap.value;
    var merged := Absorb(before[first], before[second]);
    var after := before[first := merged] - {second};
    assert PathBasedOf(rs, f, l) && PathBasedOf(rs, |p|, l);
    assert Follower(rs, |p|, l);
    assert after.Keys == before.Keys - {second};
    assert first in after && after[first] == merged;
    forall f' | Leader(rs, f', l)
      ensures f' == f && UnionOfRules(maps, rs, l, merged) && DefaultsOf(maps, rs, f, l, merged)
    {
      LaterPath(maps, p, r, f, l, before[first]);
    }
  }

  lemma MergeStepOnMaps(maps: map<Id, Contents>, p: seq<Rule>, r: Rule, l: Id, out: Merged)
    requires WellFormed(maps, p + [r]) && OwnMaps(p + [r]) && WellFormed(maps, p) && Exact(maps, p, out)
    requires r.listener == Some(l)
    ensures var st := MergeStep(Some(out), r);
            && st.Some?
            && OneRuleEach(p + [r], st.value.uniq)
            && StepOnMaps(maps, p, r, l, out.maps, st.value.maps)
  {
    if l in out.uniq && out.uniq[l].ruleType.PathBasedRouting? {
      StepWithLeader(maps, p, r, l, out);
    } else {
      StepNoLeader(maps, p, r, l, out);
    }
  }

  /** What a step does when the listener's rule is path-based. */
  lemma StepOntoLeader(out: Merged, r: Rule, l: Id)
    requires r.listener == Some(l) && l in out.uniq && out.uniq[l].ruleType.PathBasedRouting?
    requires HasMap(out.maps, out.uniq[l])
    ensures r.ruleType.Basic? ==>
      var m := out.uniq[l].pathMap.value;
      MergeStep(Some(out), r) == Some(Merged(out.uniq[l := out.uniq[l]], out.maps[m := WithDefaults(out.maps[m], r)]))
    ensures r.ruleType.PathBasedRouting? && HasMap(out.maps, r)
            && out.maps[out.uniq[l].pathMap.value].rules.Some? && out.maps[r.pathMap.value].rules.Some? ==>
      var m, n := out.uniq[l].pathMap.value, r.pathMap.value;
      MergeStep(Some(out), r) ==
        Some(Merged(out.uniq[l := out.uniq[l]], out.maps[m := Absorb(out.maps[m], out.maps[n])] - {n}))
  {
  }

  lemma LeaderMeetsBasic(maps: map<Id, Contents>, p: seq<Rule>, r: Rule, f: int, l: Id, out: Merged)
    requires WellFormed(maps, p + [r]) && WellFormed(maps, p) && LeadersMerged(maps, p, out.maps)
    requires r.listener == Some(l) && r.ruleType.Basic? && Leader(p, f, l) && l in out.uniq && out.uniq[l] == p[f]
    ensures var st := MergeStep(Some(out), r);
      st.Some? && st.value.uniq == out.uniq[l := out.uniq[l]] && StepOnMaps(maps, p, r, l, out.maps, st.value.maps)
  {
    StepOntoLeader(out, r, l);
    BasicMeetsLeader(maps, p, r, f, l, out.maps);
  }

  lemma LeaderMeetsPath(maps: map<Id, Contents>, p: seq<Rule>, r: Rule, f: int, l: Id, out: Merged)
    requires WellFormed(maps, p + [r]) && WellFormed(maps, p) && LeadersMerged(maps, p, out.maps)
    requires r.listener == Some(l) && r.ruleType.PathBasedRouting? && Leader(p, f, l) && l in out.uniq
    requires out.uniq[l] == p[f]
    requires HasMap(maps, r) && HasMap(out.maps, r) && out.maps[r.pathMap.value] == maps[r.pathMap.value]
    requires p[f].pathMap != r.pathMap
    ensures var st := MergeStep(Some(out), r);
      st.Some? && st.value.uniq == out.uniq[l := out.uniq[l]] && StepOnMaps(maps, p, r, l, out.maps, st.value.maps)
  {
    StepOntoLeader(out, r, l);
    PathMeetsLeader(maps, p, r, f, l, out.maps);
  }

  lemma StepWithLeader(maps: map<Id, Contents>, p: seq<Rule>, r: Rule, l: Id, out: Merged)
    requires WellFormed(maps, p + [r]) && OwnMaps(p + [r]) && WellFormed(maps, p) && Exact(maps, p, out)
    requires r.listener == Some(l) && l in out.uniq && out.uniq[l].ruleType.PathBasedRouting?
    ensures var st := MergeStep(Some(out), r);
            && st.Some?
            && OneRuleEach(p + [r], st.value.uniq)
            && StepOnMaps(maps, p, r, l, out.maps, st.value.maps)
  {
    var f :| Stays(p, f, l) && out.uniq[l] == p[f];
    SnocUniq(p, r, l, out.uniq, out.uniq[l]);
    if r.ruleType.Basic? {
      LeaderMeetsBasic(maps, p, r, f, l, out);
    } else {
      FreshMap(maps, p, r, out);
      LeaderMeetsPath(maps, p, r, f, l, out);
    }
  }

  lemma StepNoLeader(maps: map<Id, Contents>, p: seq<Rule>, r: Rule, l: Id, out: Merged)
    requires WellFormed(maps, p + [r]) && OwnMaps(p + [r]) && WellFormed(maps, p) && Exact(maps, p, out)
    requires r.listener == Some(l) && (l in out.uniq ==> out.uniq[l].ruleType.Basic?)
    ensures var st := MergeStep(Some(out), r);
            && st.Some?
            && OneRuleEach(p + [r], st.value.uniq)
            && StepOnMaps(maps, p, r, l, out.maps, st.value.maps)
  {
    if r.ruleType.PathBasedRouting? {
      FreshMap(maps, p, r, out);
      if l in out.uniq {
        assert MergePair(out.maps, out.uniq[l], r) == MergePair(out.maps, r, out.uniq[l]);
      }
    }
    SnocUniq(p, r, l, out.uniq, if l in out.uniq && r.ruleType.Basic? then out.uniq[l] else r);
    StepWithoutLeader(maps, p, r, l, out, MergeStep(Some(out), r).value.maps);
  }

  lemma SnocDeleted(maps: map<Id, Contents>, p: seq<Rule>, r: Rule, l: Id, before: map<Id, Contents>,
                    after: map<Id, Contents>)
    requires WellFormed(maps, p + [r]) && OnlyFollowersDeleted(maps, p, before)
    requires r.listener == Some(l) && StepOnMaps(maps, p, r, l, before, after)
    ensures OnlyFollowersDeleted(maps, p + [r], after)
  {
    var rs := p + [r];
    assert rs[|p|] == r;
    forall i, l' | Follower(rs, i, l')
      ensures Follower(p, i, l') || (i == |p| && l' == l)
    {
      Snoc(p, r, l');
    }
    forall i, l' | Follower(p, i, l')
      ensures Follower(rs, i, l') && rs[i] == p[i]
    {
      Snoc(p, r, l');
    }
  }

  lemma LeaderElsewhere(p: seq<Rule>, r: Rule, f: int, l: Id)
    requires Leader(p + [r], f, l) && r.listener != Some(l)
    ensures Leader(p, f, l) && (p + [r])[f] == p[f]
  {
    Snoc(p, r, l);
  }

  /** The step leaves the map of another listener's leader as it is. */
  lemma MapElsewhere(maps: map<Id, Contents>, p: seq<Rule>, r: Rule, l: Id, before: map<Id, Contents>,
                     after: map<Id, Contents>, f: int, l': Id)
    requires WellFormed(maps, p + [r]) && OwnMaps(p + [r]) && StepOnMaps(maps, p, r, l, before, after)
    requires PathBasedOf(p + [r], f, l') && l' != l && HasMap(before, (p + [r])[f])
    ensures HasMap(after, (p + [r])[f]) && after[(p + [r])[f].pathMap.value] == before[(p + [r])[f].pathMap.value]
  {
    var rs := p + [r];
    assert forall i :: PathBasedOf(rs, i, l) ==> i != f && rs[i].pathMap != rs[f].pathMap;
  }

  lemma SnocOtherLeader(maps: map<Id, Contents>, p: seq<Rule>, r: Rule, l: Id, before: map<Id, Contents>,
                        after: map<Id, Contents>, f: int, l': Id)
    requires WellFormed(maps, p + [r]) && OwnMaps(p + [r]) && WellFormed(maps, p)
    requires LeadersMerged(maps, p, before)
    requires r.listener == Some(l) && StepOnMaps(maps, p, r, l, before, after)
    requires Leader(p + [r], f, l') && l' != l
    ensures HasMap(after, (p + [r])[f])
    ensures UnionOfRules(maps, p + [r], l', after[(p + [r])[f].pathMap.value])
    ensures DefaultsOf(maps, p + [r], f, l', after[(p + [r])[f].pathMap.value])
  {
    LeaderElsewhere(p, r, f, l');
    MapElsewhere(maps, p, r, l, before, after, f, l');
    OtherListener(maps, p, r, f, l', before[p[f].pathMap.value]);
  }

  lemma SnocLeaders(maps: map<Id, Contents>, p: seq<Rule>, r: Rule, l: Id, before: map<Id, Contents>,
                    after: map<Id, Contents>)
    requires WellFormed(maps, p + [r]) && OwnMaps(p + [r]) && WellFormed(maps, p)
    requires LeadersMerged(maps, p, before)
    requires r.listener == Some(l) && StepOnMaps(maps, p, r, l, before, after)
    ensures LeadersMerged(maps, p + [r], after)
  {
    forall f, l' | Leader(p + [r], f, l') && l' != l
      ensures HasMap(after, (p + [r])[f])
      ensures UnionOfRules(maps, p + [r], l', after[(p + [r])[f].pathMap.value])
      ensures DefaultsOf(maps, p + [r], f, l', after[(p + [r])[f].pathMap.value])
    {
      SnocOtherLeader(maps, p, r, l, before, after, f, l');
    }
  }

  lemma SnocOthers(maps: map<Id, Contents>, p: seq<Rule>, r: Rule, l: Id, before: map<Id, Contents>,
                   after: map<Id, Contents>)
    requires WellFormed(maps, p + [r]) && OthersUntouched(maps, p, before)
    requires r.listener == Some(l) && StepOnMaps(maps, p, r, l, before, after)
    ensures OthersUntouched(maps, p + [r], after)
  {
    var rs := p + [r];
    forall i, l' | PathBasedOf(p, i, l') ensures PathBasedOf(rs, i, l') && rs[i] == p[i] {}
  }

  /** MergeRules is exact when path-based rules have maps of their own. */
  lemma {:induction false} MergeIsExact(maps: map<Id, Contents>, rules: seq<Rule>)
    requires WellFormed(maps, rules) && OwnMaps(rules)
    ensures MergeAll(maps, rules).Some? && Exact(maps, rules, MergeAll(maps, rules).value)
  {
    if rules != [] {
      var p, r := rules[..|rules| - 1], rules[|rules| - 1];
      assert rules == p + [r];
      assert forall i :: 0 <= i < |p| ==> p[i] == rules[i];
      MergeIsExact(maps, p);
      var out := MergeAll(maps, p).value;
      MergeStepOnMaps(maps, p, r, r.listener.value, out);
      var after := MergeStep(Some(out), r).value.maps;
      SnocDeleted(maps, p, r, r.listener.value, out.maps, after);
      SnocLeaders(maps, p, r, r.listener.value, out.maps, after);
      SnocOthers(maps, p, r, r.listener.value, out.maps, after);
    }
  }

  // ---------------------------------------------------------------- shared maps

  /** No map of a follower is shared with another path-based rule. */
  ghost predicate FollowersOwnTheirMaps(rules: seq<Rule>) {
    forall i, l, k, l' :: Follower(rules, i, l) && PathBasedOf(rules, k, l') && k != i ==>
      rules[k].pathMap != rules[i].pathMap
  }

  /** The merge does not crash, and every path-based rule that stays still has its map. */
  ghost predicate Survives(maps: map<Id, Contents>, rules: seq<Rule>) {
    && MergeAll(maps, rules).Some?
    && forall f, l :: Leader(rules, f, l) ==> HasMap(MergeAll(maps, rules).value.maps, rules[f])
  }

  ghost predicate AllCarryRules(maps: map<Id, Contents>) {
    forall m :: m in maps ==> maps[m].rules.Some?
  }

  ghost predicate FollowersDistinct(rules: seq<Rule>) {
    forall i, l, k, l' :: Follower(rules, i, l) && Follower(rules, k, l') && k != i ==>
      rules[k].pathMap != rules[i].pathMap
  }

  lemma SnocFollowers(p: seq<Rule>, r: Rule, l: Id)
    requires r.listener == Some(l)
    ensures forall i, l' :: Follower(p + [r], i, l') ==> Follower(p, i, l') || (i == |p| && l' == l)
    ensures forall i, l' :: Follower(p, i, l') ==> Follower(p + [r], i, l') && (p + [r])[i] == p[i]
  {
    forall l' { Snoc(p, r, l'); }
  }

  /** Which rule and which maps merging two rules leaves, and when it does not crash. */
  lemma PairKeys(maps: map<Id, Contents>, first: Rule, second: Rule)
    requires AllCarryRules(maps)
    ensures var st := MergePair(maps, first, second);
      var both := first.ruleType.PathBasedRouting? && second.ruleType.PathBasedRouting?;
      && (st.Some? ==>
            && st.value.0 == (if first.ruleType.Basic? && second.ruleType.PathBasedRouting? then second else first)
            && AllCarryRules(st.value.1) && (both ==> HasMap(maps, second))
            && st.value.1.Keys == if both then maps.Keys - {second.pathMap.value} else maps.Keys)
      && ((first.ruleType.PathBasedRouting? ==> HasMap(maps, first)) && (second.ruleType.PathBasedRouting? ==>
            HasMap(maps, second))
          ==> st.Some?)
  {
    if first.ruleType.Basic? && second.ruleType.PathBasedRouting? {
      assert MergePair(maps, first, second) == MergePair(maps, second, first);
    }
  }

  /** One step, whatever is shared: when it crashes, and which maps it leaves. */
  lemma StepKeys(p: seq<Rule>, r: Rule, l: Id, out: Merged)
    requires OneRuleEach(p, out.uniq) && AllCarryRules(out.maps) && r.listener == Some(l)
    ensures var st, absorbed := MergeStep(Some(out), r), Follower(p + [r], |p|, l);
      && (st.Some? ==>
            && OneRuleEach(p + [r], st.value.uniq) && AllCarryRules(st.value.maps)
            && (absorbed ==> HasMap(out.maps, r))
            && st.value.maps.Keys == if absorbed then out.maps.Keys - {r.pathMap.value} else out.maps.Keys)
      && ((forall f :: Leader(p, f, l) ==> HasMap(out.maps, p[f])) && (r.ruleType.PathBasedRouting? ==>
            HasMap(out.maps, r))
          ==> st.Some?)
  {
    Snoc(p, r, l);
    if l in out.uniq {
      var i :| Stays(p, i, l) && out.uniq[l] == p[i];
      assert Follower(p + [r], |p|, l) <==> out.uniq[l].ruleType.PathBasedRouting? && r.ruleType.PathBasedRouting?;
      SnocUniq(p, r, l, out.uniq,
          if out.uniq[l].ruleType.Basic? && r.ruleType.PathBasedRouting? then r else out.uniq[l]);
      PairKeys(out.maps, out.uniq[l], r);
    } else {
      assert forall i :: !Of(p, i, l);
      SnocUniq(p, r, l, out.uniq, r);
    }
  }

  lemma StepDeletes(maps: map<Id, Contents>, p: seq<Rule>, r: Rule, l: Id, before: map<Id, Contents>,
                    after: map<Id, Contents>)
    requires r.listener == Some(l) && OnlyFollowersDeleted(maps, p, before) && FollowersDistinct(p)
    requires Follower(p + [r], |p|, l) ==> HasMap(before, r)
    requires after.Keys == if Follower(p + [r], |p|, l) then before.Keys - {r.pathMap.value} else before.Keys
    ensures OnlyFollowersDeleted(maps, p + [r], after) && FollowersDistinct(p + [r])
  {
    SnocFollowers(p, r, l);
    var rs := p + [r];
    assert rs[|p|] == r;
    forall m | m in maps
      ensures m !in after <==> exists i, l' :: Follower(rs, i, l') && rs[i].pathMap == Some(m)
    {
      if i, l' :| Follower(p, i, l') && p[i].pathMap == Some(m) {
        assert Follower(rs, i, l') && rs[i].pathMap == Some(m);
      }
    }
  }

  /** Whatever is shared: if the merge does not crash, it keeps the right rule for every listener
      and deletes exactly the followers' maps, no two followers sharing one. */
  lemma {:induction false} MergeKeys(maps: map<Id, Contents>, rules: seq<Rule>)
    requires WellFormed(maps, rules) && MergeAll(maps, rules).Some?
    ensures var out := MergeAll(maps, rules).value;
            && OneRuleEach(rules, out.uniq) && OnlyFollowersDeleted(maps, rules, out.maps)
            && AllCarryRules(out.maps) && FollowersDistinct(rules)
  {
    if rules != [] {
      var p, r := rules[..|rules| - 1], rules[|rules| - 1];
      assert rules == p + [r];
      assert WellFormed(maps, p) by { assert forall i :: 0 <= i < |p| ==> p[i] == rules[i]; }
      MergeKeys(maps, p);
      var out := MergeAll(maps, p).value;
      StepKeys(p, r, r.listener.value, out);
      StepDeletes(maps, p, r, r.listener.value, out.maps, MergeAll(maps, rules).value.maps);
    }
  }

  lemma {:induction false} OwnedFollowersDoNotCrash(maps: map<Id, Contents>, rules: seq<Rule>)
    requires WellFormed(maps, rules) && FollowersOwnTheirMaps(rules)
    ensures MergeAll(maps, rules).Some?
  {
    if rules != [] {
      var p, r := rules[..|rules| - 1], rules[|rules| - 1];
      assert rules == p + [r];
      var l := r.listener.value;
      assert WellFormed(maps, p) by { assert forall i :: 0 <= i < |p| ==> p[i] == rules[i]; }
      OwnedPrefix(p, r, l);
      OwnedFollowersDoNotCrash(maps, p);
      MergeKeys(maps, p);
      var out := MergeAll(maps, p).value;
      StepKeys(p, r, l, out);
      assert forall f, l' :: Leader(p, f, l') ==> !Follower(p, f, l');
      assert forall f, l' :: Leader(p, f, l') ==> HasMap(maps, p[f]);
      assert r.ruleType.PathBasedRouting? ==> HasMap(maps, r);
      if r.ruleType.PathBasedRouting? {
        assert PathBasedOf(rules, |p|, l);
        forall k, l' | Follower(p, k, l') ensures p[k].pathMap != r.pathMap {
          assert Follower(rules, k, l') && rules[k] == p[k];
        }
      }
    }
  }

  lemma OwnedPrefix(p: seq<Rule>, r: Rule, l: Id)
    requires FollowersOwnTheirMaps(p + [r]) && r.listener == Some(l)
    ensures FollowersOwnTheirMaps(p)
    ensures forall i, l' :: Follower(p, i, l') ==> Follower(p + [r], i, l') && (p + [r])[i] == p[i]
  {
    SnocFollowers(p, r, l);
    forall k, l' | PathBasedOf(p, k, l') ensures PathBasedOf(p + [r], k, l') && (p + [r])[k] == p[k] {}
  }

  /** Exactly when MergeRules neither crashes nor deletes a map still in use. */
  lemma MergeSurvivesIff(maps: map<Id, Contents>, rules: seq<Rule>)
    requires WellFormed(maps, rules)
    ensures Survives(maps, rules) <==> FollowersOwnTheirMaps(rules)
  {
    if FollowersOwnTheirMaps(rules) {
      OwnedFollowersDoNotCrash(maps, rules);
      MergeKeys(maps, rules);
      assert forall f, l :: Leader(rules, f, l) ==> !Follower(rules, f, l);
    }
    if Survives(maps, rules) {
      MergeKeys(maps, rules);
      forall i, l, k, l' | Follower(rules, i, l) && PathBasedOf(rules, k, l') && k != i
        ensures rules[k].pathMap != rules[i].pathMap
      {
        if !Follower(rules, k, l') {
          assert Leader(rules, k, l');
        }
      }
    }
  }

  /** Two rules of one listener that share a path map: the map is gone, the rule still names it. */
  lemma SharedMapIsLost(maps: map<Id, Contents>, rule: Rule)
    requires maps.Keys == {"m"} && maps["m"].rules.Some?
    requires rule.listener == Some("l") && rule.ruleType.PathBasedRouting? && rule.pathMap == Some("m")
    ensures MergeAll(maps, [rule, rule]) == Some(Merged(map["l" := rule], map[]))
    ensures !FollowersOwnTheirMaps([rule, rule])
  {
    var rules := [rule, rule];
    assert rules[..1] == [rule] && [rule][..0] == [];
    assert MergeAll(maps, [rule]) == Some(Merged(map["l" := rule], maps));
    assert PathBasedOf(rules, 0, "l") && Follower(rules, 1, "l");
    var after := maps["m" := Absorb(maps["m"], maps["m"])] - {"m"};
    assert after == map[];
    assert MergePair(maps, rule, rule) == Some((rule, after));
    assert MergeAll(maps, rules) == MergeStep(MergeAll(maps, [rule]), rule);
    assert map["l" := rule]["l" := rule] == map["l" := rule];
  }
}
