/**
 RequestRoutingRules in shared mode: path maps are classified and merged, then the rules are
 classified on the merged path maps and merged (pkg/appgw/requestroutingrules.go).
 */
module SharedRouting {
  import opened Resources
  import opened Iteration
  import opened Strings
  import opened Prohibition
  import opened Targets
  import opened Classification
  import opened ClassificationImpl
  import opened Retained
  import RM = RuleMerging
  import RML = RuleMergingList
  import RMI = RuleMergingImpl
  import PMM = PathMapMerging

  // ----------------------------------------------------------------------- the rules that stay

  /** Every path rule name of the first rule's map is in the second rule's map. */
  ghost predicate HoldsNames(view: map<string, RM.Contents>, r: Rule, after: map<string, RM.Contents>, kept: Rule) {
    && RM.HasMap(after, kept) && after[kept.pathMap.value].rules.Some?
    && (RM.HasMap(view, r) && view[r.pathMap.value].rules.Some? ==>
          forall n :: n in view[r.pathMap.value].rules.value ==> n in after[kept.pathMap.value].rules.value)
  }

  /** The first prohibited path-based rule of the listener stays, and its map holds the path rule names of
      prohibited rule `k`; rule `k` itself stays exactly when it is that first one. */
  ghost predicate RuleStands(view: map<string, RM.Contents>, prohibited: seq<Rule>, k: int, l: string,
                             uniq: map<string, Rule>, after: map<string, RM.Contents>)
    requires 0 <= k < |prohibited|
  {
    exists f :: 0 <= f <= k && RM.Leader(prohibited, f, l) && l in uniq && uniq[l] == prohibited[f]
                && HoldsNames(view, prohibited[k], after, prohibited[f]) && (uniq[l] == prohibited[k] <==> f == k)
  }

  lemma {:induction false} FirstPathRule(rules: seq<Rule>, k: nat, l: string) returns (f: nat)
    requires RM.PathBasedOf(rules, k, l)
    ensures f <= k && RM.Leader(rules, f, l)
  {
    if j: nat :| j < k && RM.PathBasedOf(rules, j, l) {
      f := FirstPathRule(rules, j, l);
    } else {
      f := k;
    }
  }

  /** Rules of ours come later and do not displace the leader. */
  lemma LeaderInFront(prohibited: seq<Rule>, ours: seq<Rule>, f: nat, l: string)
    requires RM.Leader(prohibited, f, l)
    ensures RM.Leader(prohibited + ours, f, l)
  {
    var all := prohibited + ours;
    forall j | RM.PathBasedOf(all, j, l) ensures f <= j {
      if j < |prohibited| { assert RM.PathBasedOf(prohibited, j, l); }
    }
  }

  lemma {:induction false} LeaderStays(rules: seq<Rule>, f: nat, l: string, uniq: map<string, Rule>)
    requires RM.OneRuleEach(rules, uniq) && RM.Leader(rules, f, l)
    ensures l in uniq && uniq[l] == rules[f]
  {
    var i :| RM.Stays(rules, i, l) && uniq[l] == rules[i];
    assert i == f;
  }

  lemma {:induction false} LeaderHoldsNames(view: map<string, RM.Contents>, rules: seq<Rule>, f: nat, k: nat, l: string,
                                            after: map<string, RM.Contents>)
    requires RM.WellFormed(view, rules) && RM.LeadersMerged(view, rules, after)
    requires RM.Leader(rules, f, l) && RM.PathBasedOf(rules, k, l)
    ensures HoldsNames(view, rules[k], after, rules[f])
  {
    assert RM.UnionOfRules(view, rules, l, after[rules[f].pathMap.value]);
    forall n | n in view[rules[k].pathMap.value].rules.value ensures RM.Supplies(view, rules, k, l, n) {}
  }

  lemma {:induction false} ProhibitedRuleStands(view: map<string, RM.Contents>, prohibited: seq<Rule>, ours: seq<Rule>,
                                                k: nat, l: string, out: RM.Merged)
    requires RM.WellFormed(view, prohibited + ours) && RM.OwnMaps(prohibited + ours)
    requires RM.Exact(view, prohibited + ours, out) && RM.PathBasedOf(prohibited, k, l)
    ensures RuleStands(view, prohibited, k, l, out.uniq, out.maps)
  {
    var all := prohibited + ours;
    var f := FirstPathRule(prohibited, k, l);
    LeaderInFront(prohibited, ours, f, l);
    assert all[f] == prohibited[f] && all[k] == prohibited[k];
    assert RM.PathBasedOf(all, k, l) && RM.PathBasedOf(all, f, l);
    LeaderStays(all, f, l, out.uniq);
    LeaderHoldsNames(view, all, f, k, l, out.maps);
    assert f < k ==> all[f].pathMap != all[k].pathMap;
  }

  // ----------------------------------------------------------------------- still prohibited

  /** The path rule serves a prohibited path of the host. */
  ghost predicate ServesProhibited(er: Existing, host: string, p: PathRule<string>) {
    p.paths.Some? && exists path :: path in p.paths.value && Prohibited(Target(host, path), er.prohibited)
  }

  /** Path rule `p` is in the map called `name` after merging: that map is the only one of its name and has
      it, or `p` comes from the last of the maps of that name to give its name. */
  ghost predicate StillThere(all: seq<RMI.PathMap>, props: seq<Props>, name: string, p: PathRule<string>)
    requires |props| == |all|
  {
    exists j :: 0 <= j < |all| && all[j].name == name && Keeps(all, props, p, j)
  }

  ghost predicate Keeps(all: seq<RMI.PathMap>, props: seq<Props>, p: PathRule<string>, j: nat)
    requires j < |props| == |all|
  {
    if PMM.Alone(all, |all|, j) then props[j].pathRules.Some? && p in props[j].pathRules.value
    else GivesIn(all, props, p, j)
  }

  ghost predicate GivesIn(all: seq<RMI.PathMap>, props: seq<Props>, p: PathRule<string>, j: nat)
    requires j < |props| == |all|
  {
    PMM.GivesLast(all, props, |all|, all[j].name, p.name, j) && RM.ByName(props[j].pathRules.value)[p.name] == p
  }

  lemma {:induction false} PathTargetsServe(er: Existing, host: string, rules: seq<PathRule<string>>)
    ensures Hit(er, PathTargets(host, rules)) <==> exists p :: p in rules && ServesProhibited(er, host, p)
  {
    if rules != [] {
      var n := |rules| - 1;
      var front, last := rules[..n], rules[n];
      PathTargetsServe(er, host, front);
      assert rules == front + [last];
      var own := if last.paths.None? then [] else WithHost(host, last.paths.value);
      assert PathTargets(host, rules) == PathTargets(host, front) + own;
      assert Hit(er, own) <==> ServesProhibited(er, host, last) by {
        if path :| last.paths.Some? && path in last.paths.value && Prohibited(Target(host, path), er.prohibited) {
          var i :| 0 <= i < |last.paths.value| && last.paths.value[i] == path;
          assert own[i] in own;
        }
      }
    }
  }

  /** In a list with one rule per name, a rule is there exactly when the list gives it by its name. */
  lemma {:induction false} InListByName(rules: seq<PathRule<string>>, p: PathRule<string>)
    requires PMM.OnePerName(rules)
    ensures p in rules <==> p.name in RM.ByName(rules) && RM.ByName(rules)[p.name] == p
  {
    if rules != [] {
      var n := |rules| - 1;
      InListByName(rules[..n], p);
      assert rules == rules[..n] + [rules[n]];
    }
  }

  /** The path rules of a merged map are those that survive. */
  lemma {:induction false} MergedRulesSurvive(all: seq<RMI.PathMap>, props: seq<Props>, f: nat, after: Props,
                                             p: PathRule<string>)
    requires |props| == |all| && f < |all| && PMM.First(all, f) && PMM.MergedProps(all, props, |all|, f, after)
    requires after.pathRules.Some?
    ensures p in after.pathRules.value <==> StillThere(all, props, all[f].name, p)
  {
    if PMM.Alone(all, |all|, f) {
      assert StillThere(all, props, all[f].name, p) <==> Keeps(all, props, p, f);
    } else {
      UnionSurvives(all, props, after.pathRules.value, all[f].name, p);
      TogetherSurvives(all, props, f, p);
    }
  }

  lemma {:induction false} TogetherSurvives(all: seq<RMI.PathMap>, props: seq<Props>, f: nat, p: PathRule<string>)
    requires f < |all| == |props| && !PMM.Alone(all, |all|, f)
    ensures StillThere(all, props, all[f].name, p) <==>
      exists j :: 0 <= j < |all| && all[j].name == all[f].name && GivesIn(all, props, p, j)
  {
    var g :| 0 <= g < |all| && g != f && all[g].name == all[f].name;
    forall j | 0 <= j < |all| && all[j].name == all[f].name
      ensures Keeps(all, props, p, j) <==> GivesIn(all, props, p, j)
    {
      assert all[if j == f then g else f].name == all[j].name;
    }
  }

  lemma {:induction false} UnionSurvives(all: seq<RMI.PathMap>, props: seq<Props>, rules: seq<PathRule<string>>,
                                         name: string, p: PathRule<string>)
    requires |props| == |all| && PMM.OnePerName(rules)
    requires RM.ByName(rules) == PMM.RulesNamed(all, props, |all|, name)
    ensures p in rules <==> exists j :: 0 <= j < |all| && all[j].name == name && GivesIn(all, props, p, j)
  {
    InListByName(rules, p);
    var j := PMM.RulesNamedAre(all, props, |all|, name, p.name);
    assert p in rules ==> GivesIn(all, props, p, j);
    forall i: nat | i < |all| && all[i].name == name && GivesIn(all, props, p, i) ensures i == j {
      assert PMM.Gives(all, props, |all|, name, p.name, i);
    }
  }

  /** Every existing path map that a prohibited rule leads to has a map that stands for it. */
  ghost predicate MapsStand(er: Existing, existing: seq<RMI.PathMap>, ours: seq<RMI.PathMap>, props: seq<Props>,
                            now: Existing)
    requires |props| == |existing + ours|
  {
    forall i :: 0 <= i < |existing| && LedByProhibited(er, existing[i].name) ==>
      exists f, m :: m in now.pathMaps && m.name == existing[i].name && StandsFor(existing + ours, props, i, f, m.body)
  }

  ghost predicate OneMapPerName(er: Existing) {
    forall a, b :: a in er.pathMaps && b in er.pathMaps && a.name == b.name ==> a == b
  }

  /** The rule's host with the blank path is prohibited. */
  ghost predicate HostProhibited(er: Existing, rule: Rule) {
    HostOf(er, rule).Some? && Prohibited(Target(HostOf(er, rule).value, ""), er.prohibited)
  }

  /** A path rule that survives in the map the rule leads to serves a prohibited path. */
  ghost predicate StillServes(er: Existing, all: seq<RMI.PathMap>, props: seq<Props>, rule: Rule)
    requires |props| == |all|
  {
    && HostOf(er, rule).Some? && rule.pathMap.Some?
    && exists p :: StillThere(all, props, LastChunk(rule.pathMap.value), p)
                   && ServesProhibited(er, HostOf(er, rule).value, p)
  }

  /** With distinct rule names a rule is prohibited for what it serves itself. */
  lemma OwnTargetsDecide(er: Existing, rule: Rule)
    requires RuleNamesDistinct(er) && rule in er.rules
    ensures RuleProhibited(er, rule) <==> HostProhibited(er, rule) || Hit(er, MapTargetsOf(er, rule))
  {
    assert RuleProhibited(er, rule) <==> Hit(er, TargetsOf(er, rule));
    if HostOf(er, rule).Some? {
      var blank := Target(HostOf(er, rule).value, "");
      assert TargetsOf(er, rule) == [blank] + MapTargetsOf(er, rule);
      assert blank in TargetsOf(er, rule);
      assert forall t :: t in MapTargetsOf(er, rule) ==> t in TargetsOf(er, rule);
    }
  }

  /** The map that stands for the one the rule leads to. */
  lemma {:induction false} StandingMap(er: Existing, existing: seq<RMI.PathMap>, ours: seq<RMI.PathMap>,
                                       props: seq<Props>, now: Existing, rule: Rule) returns (f: nat)
    requires MapsHavePaths(er) && Describes(er, existing, props) && |props| == |existing + ours|
    requires OneMapPerName(now) && MapsStand(er, existing, ours, props, now)
    requires rule in er.rules && RuleProhibited(er, rule) && MapOf(er, rule).Some?
    ensures f < |existing + ours| && PMM.First(existing + ours, f)
    ensures LeadsTo(rule, (existing + ours)[f].name) && MapOf(now, rule).Some?
    ensures var after := MapOf(now, rule).value.body;
      after.pathRules.Some? && PMM.MergedProps(existing + ours, props, |existing + ours|, f, after)
  {
    var i := LedMap(er, rule);
    var m;
    f, m := StandsAt(er, existing, ours, props, now, i);
    FoundByName(now, rule, m);
  }

  lemma {:induction false} LedMap(er: Existing, rule: Rule) returns (i: nat)
    requires MapsHavePaths(er) && rule in er.rules && RuleProhibited(er, rule) && MapOf(er, rule).Some?
    ensures i < |er.pathMaps| && LeadsTo(rule, er.pathMaps[i].name) && LedByProhibited(er, er.pathMaps[i].name)
    ensures er.pathMaps[i].body.pathRules.Some?
  {
    var m := MapOf(er, rule).value;
    i :| 0 <= i < |er.pathMaps| && er.pathMaps[i] == m;
    assert HasPath(m.body);
  }

  lemma {:induction false} FoundByName(er: Existing, rule: Rule, m: ExistingPathMap)
    requires OneMapPerName(er) && m in er.pathMaps && LeadsTo(rule, m.name)
    ensures MapOf(er, rule) == Some(m)
  {
    var found := MapOf(er, rule);
    assert found.Some? && found.value in er.pathMaps && found.value.name == m.name;
  }

  lemma {:induction false} StandsAt(er: Existing, existing: seq<RMI.PathMap>, ours: seq<RMI.PathMap>,
                                    props: seq<Props>, now: Existing, i: nat) returns (f: nat, m: ExistingPathMap)
    requires |props| == |existing + ours| && MapsStand(er, existing, ours, props, now)
    requires i < |existing| && LedByProhibited(er, existing[i].name) && props[i].pathRules.Some?
    ensures f < |existing + ours| && PMM.First(existing + ours, f) && (existing + ours)[f].name == existing[i].name
    ensures m in now.pathMaps && m.name == existing[i].name
    ensures m.body.pathRules.Some? && PMM.MergedProps(existing + ours, props, |existing + ours|, f, m.body)
  {
    var g, x :| x in now.pathMaps && x.name == existing[i].name && StandsFor(existing + ours, props, i, g, x.body);
    f, m := g, x;
  }

  /** A prohibited rule is still prohibited once the path maps are merged, exactly when its host is
      prohibited throughout or a path rule that survives in its map serves a prohibited path. */
  lemma {:induction false} StillProhibitedIff(er: Existing, existing: seq<RMI.PathMap>, ours: seq<RMI.PathMap>,
                                              props: seq<Props>, now: Existing, rule: Rule)
    requires Regular(er) && Describes(er, existing, props) && |props| == |existing + ours|
    requires now == er.(pathMaps := now.pathMaps) && OneMapPerName(now) && MapsStand(er, existing, ours, props, now)
    requires rule in er.rules && RuleProhibited(er, rule)
    ensures RuleProhibited(now, rule) <==>
      HostProhibited(er, rule) || StillServes(er, existing + ours, props, rule)
  {
    OwnTargetsDecide(er, rule);
    OwnTargetsDecide(now, rule);
    if !HostProhibited(er, rule) {
      var f := StandingMap(er, existing, ours, props, now, rule);
      var host, after := HostOf(er, rule).value, MapOf(now, rule).value.body;
      SurvivorsServe(er, existing + ours, props, f, after, host);
      PathTargetsServe(now, host, after.pathRules.value);
    }
  }

  /** A prohibited path rule replaced by one of ours of the same name, under which no prohibited path is
      served: the rule that led to it is no longer prohibited, so it is not kept. */
  lemma {:induction false} ReplacedPathFreesRule(
      er: Existing, existing: seq<RMI.PathMap>, ours: seq<RMI.PathMap>, props: seq<Props>, now: Existing, rule: Rule,
      theirs: PathRule<string>, mine: PathRule<string>)
    requires Regular(er) && Describes(er, existing, props) && |props| == |existing + ours|
    requires now == er.(pathMaps := now.pathMaps) && OneMapPerName(now) && MapsStand(er, existing, ours, props, now)
    requires rule in er.rules && RuleProhibited(er, rule) && !HostProhibited(er, rule)
    requires |existing| == |ours| == 1 && existing[0].name == ours[0].name && theirs.name == mine.name
    requires props[0].pathRules == Some([theirs]) && props[1].pathRules == Some([mine])
    requires HostOf(er, rule).Some? && !ServesProhibited(er, HostOf(er, rule).value, mine)
    ensures rule !in Where(er.rules, RuleTest(now), true)
  {
    StillProhibitedIff(er, existing, ours, props, now, rule);
    forall p | StillThere(existing + ours, props, existing[0].name, p) ensures p == mine {
      OnlyOursSurvives(existing + ours, props, theirs, mine, p);
    }
    WhereHas(er.rules, RuleTest(now), true, rule);
  }

  lemma {:induction false} OnlyOursSurvives(all: seq<RMI.PathMap>, props: seq<Props>, theirs: PathRule<string>,
                                            mine: PathRule<string>, p: PathRule<string>)
    requires |props| == |all| == 2 && all[0].name == all[1].name && theirs.name == mine.name
    requires props[0].pathRules == Some([theirs]) && props[1].pathRules == Some([mine])
    requires StillThere(all, props, all[0].name, p)
    ensures p == mine
  {
    assert [mine][..0] == [] && [theirs][..0] == [];
    assert RM.ByName([]) == map[];
    assert RM.ByName([mine]) == map[mine.name := mine] && RM.ByName([theirs]) == map[theirs.name := theirs];
    assert PMM.Gives(all, props, 2, all[0].name, mine.name, 1);
  }

  lemma SurvivorsServe(er: Existing, all: seq<RMI.PathMap>, props: seq<Props>, f: nat, after: Props, host: string)
    requires |props| == |all| && f < |all| && PMM.First(all, f) && PMM.MergedProps(all, props, |all|, f, after)
    requires after.pathRules.Some?
    ensures (exists p :: p in after.pathRules.value && ServesProhibited(er, host, p)) <==>
      exists p :: StillThere(all, props, all[f].name, p) && ServesProhibited(er, host, p)
  {
    forall p ensures p in after.pathRules.value <==> StillThere(all, props, all[f].name, p) {
      MergedRulesSurvive(all, props, f, after, p);
    }
  }

  // ----------------------------------------------------------------------- the whole

  /** The path maps as the objects hold them now. */
  method Describe(maps: seq<RMI.PathMap>) returns (r: seq<ExistingPathMap>)
    ensures |r| == |maps|
    ensures forall i :: 0 <= i < |maps| ==> r[i] == Resource(maps[i].name, maps[i].cell.props)
  {
    r := [];
    for i := 0 to |maps|
      invariant |r| == i && forall j :: 0 <= j < i ==> r[j] == Resource(maps[j].name, maps[j].cell.props)
    {
      r := r + [Resource(maps[i].name, maps[i].cell.props)];
    }
  }

  ghost function EntriesOfMaps(maps: seq<RMI.PathMap>): (list: seq<RML.Entry>)
    reads RMI.Cells(maps)
    ensures RMI.Shows(maps, list)
  {
    if maps == [] then []
    else
      var n := |maps| - 1;
      assert forall c :: c in RMI.Cells(maps[..n]) ==> c in RMI.Cells(maps);
      assert maps[n].cell in RMI.Cells(maps);
      EntriesOfMaps(maps[..n]) + [RML.Entry(maps[n].id, RM.View(maps[n].cell.props))]
  }

  lemma MembersOwnCells(all: seq<RMI.PathMap>, some: seq<RMI.PathMap>)
    requires RMI.OwnCells(all) && forall m :: m in some ==> m in all
    requires forall i, j :: 0 <= i < j < |some| ==> some[i].name != some[j].name
    ensures RMI.OwnCells(some) && RMI.Cells(some) <= RMI.Cells(all)
  {
    forall i, j | 0 <= i < j < |some| ensures some[i].cell != some[j].cell {
      assert some[i] in all && some[j] in all;
      var p, q :| 0 <= p < |all| && 0 <= q < |all| && all[p] == some[i] && all[q] == some[j];
      assert p != q;
    }
    forall c | c in RMI.Cells(some) ensures c in RMI.Cells(all) {
      var i :| 0 <= i < |some| && some[i].cell == c;
      assert some[i] in all;
      var p :| 0 <= p < |all| && all[p] == some[i];
      assert all[p].cell == c;
    }
  }

  /** What the rules come to: for every gateway with IDs of their own and rules with maps of their own. */
  ghost predicate RulesStand(list: seq<RML.Entry>, prohibited: seq<Rule>, ours: seq<Rule>, out: RML.MergedList) {
    forall view :: RML.Means(list, view) && RM.WellFormed(view, prohibited + ours) && RM.OwnMaps(prohibited + ours) ==>
      exists after :: AllStand(view, prohibited, out, after)
  }

  ghost predicate AllStand(view: map<string, RM.Contents>, prohibited: seq<Rule>, out: RML.MergedList,
                           after: map<string, RM.Contents>) {
    && RML.Means(out.list, after)
    && forall k, l :: RM.PathBasedOf(prohibited, k, l) ==> RuleStands(view, prohibited, k, l, out.uniq, after)
  }

  lemma MergedRulesStand(list: seq<RML.Entry>, prohibited: seq<Rule>, ours: seq<Rule>)
    requires RML.MergeAllIn(list, prohibited + ours).Some?
    ensures RulesStand(list, prohibited, ours, RML.MergeAllIn(list, prohibited + ours).value)
  {
    var out := RML.MergeAllIn(list, prohibited + ours).value;
    forall view | RML.Means(list, view) && RM.WellFormed(view, prohibited + ours) && RM.OwnMaps(prohibited + ours)
      ensures exists after :: AllStand(view, prohibited, out, after)
    {
      RML.MergeRefines(list, view, prohibited + ours);
      RM.MergeIsExact(view, prohibited + ours);
      var merged := RM.MergeAll(view, prohibited + ours).value;
      forall k, l | RM.PathBasedOf(prohibited, k, l) ensures RuleStands(view, prohibited, k, l, out.uniq, merged.maps) {
        ProhibitedRuleStands(view, prohibited, ours, k, l, merged);
      }
      assert AllStand(view, prohibited, out, merged.maps);
    }
  }

  /** `list` are the merged path maps `now` has, with the IDs of the objects they come from. */
  ghost predicate Lists(all: seq<RMI.PathMap>, now: Existing, list: seq<RML.Entry>) {
    && |list| == |now.pathMaps|
    && forall i :: 0 <= i < |list| ==>
      && list[i].contents == RM.View(now.pathMaps[i].body)
      && exists m :: m in all && m.name == now.pathMaps[i].name && m.id == list[i].id
  }

  /** RequestRoutingRules with path maps and rules of an existing gateway. `now` is the gateway after the
      path maps are merged, on which the rules are classified, `list` those path maps with their IDs, and
      `out` the path maps in the end. None is a nil dereference. */
  method RequestRoutingRules(er: Existing, existing: seq<RMI.PathMap>, ourMaps: seq<RMI.PathMap>, ourRules: seq<Rule>,
                             gw: RMI.Gateway, ghost props: seq<Props>)
    returns (r: Option<seq<Rule>>, ghost now: Existing, ghost list: seq<RML.Entry>, ghost out: RML.MergedList)
    requires Regular(er) && Describes(er, existing, props)
    requires RMI.OwnCells(existing + ourMaps) && PMM.PropsOf(existing + ourMaps, props)
    modifies gw, RMI.Cells(existing + ourMaps)
    ensures r.None? <==>
      || LacksList(er, existing + ourMaps, props)
      || TargetsCrash(now)
      || RML.MergeAllIn(list, Where(er.rules, RuleTest(now), true) + ourRules).None?
    ensures !LacksList(er, existing + ourMaps, props) ==>
      now == er.(pathMaps := now.pathMaps) && OneMapPerName(now) && MapsStand(er, existing, ourMaps, props, now)
    ensures r.Some? ==> RMI.Shows(gw.urlPathMaps, out.list)
    ensures r.Some? ==> forall x :: x in r.value <==>
      x.listener.Some? && x.listener.value in out.uniq && out.uniq[x.listener.value] == x
    ensures !LacksList(er, existing + ourMaps, props) && !TargetsCrash(now) ==> Lists(existing + ourMaps, now, list)
    ensures r.Some? ==> RulesStand(list, Where(er.rules, RuleTest(now), true), ourRules, out)
  {
    now, list, out := er, [], RML.MergedList(map[], []);
    var maps := RetainPathMaps(er, existing, ourMaps, props);
    if maps.None? { return None, now, list, out; }
    MembersOwnCells(existing + ourMaps, maps.value);
    var described := Describe(maps.value);
    var after := er.(pathMaps := described);
    now := after;
    MapsDescribed(er, existing, ourMaps, props, maps.value, after);
    var split := GetBlacklistedRoutingRules(after);
    if split.None? { return None, now, list, out; }
    gw.urlPathMaps := maps.value;
    list := EntriesOfMaps(maps.value);
    r, out := RMI.MergeRules(gw, [split.value.0, ourRules], list);
    FlattenTwo(split.value.0, ourRules);
    if r.Some? {
      MergedRulesStand(list, split.value.0, ourRules);
    }
  }

  lemma MapsDescribed(er: Existing, existing: seq<RMI.PathMap>, ours: seq<RMI.PathMap>, props: seq<Props>,
                      maps: seq<RMI.PathMap>, now: Existing)
    requires |props| == |existing + ours| && |now.pathMaps| == |maps|
    requires forall i :: 0 <= i < |maps| ==> now.pathMaps[i] == Resource(maps[i].name, maps[i].cell.props)
    requires forall i :: 0 <= i < |existing| && LedByProhibited(er, existing[i].name) ==>
      exists f :: 0 <= f <= i && existing[f] in maps && StandsFor(existing + ours, props, i, f, existing[f].cell.props)
    requires forall i, j :: 0 <= i < j < |maps| ==> maps[i].name != maps[j].name
    ensures MapsStand(er, existing, ours, props, now) && OneMapPerName(now)
  {
    forall i | 0 <= i < |existing| && LedByProhibited(er, existing[i].name)
      ensures exists f, m ::
        m in now.pathMaps && m.name == existing[i].name && StandsFor(existing + ours, props, i, f, m.body)
    {
      var f :| 0 <= f <= i && existing[f] in maps && StandsFor(existing + ours, props, i, f, existing[f].cell.props);
      var p :| 0 <= p < |maps| && maps[p] == existing[f];
      assert now.pathMaps[p] in now.pathMaps;
    }
  }
}
