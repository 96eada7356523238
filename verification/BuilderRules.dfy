/**
 Path maps and routing rules as the controller builds them: path maps are objects held in
 a map by listener identifier and merged in place (pkg/appgw/requestroutingrules.go).
 */
module BuilderRules {
  import opened Iteration
  import opened Sorting
  import opened Resources
  import opened RoutingTypes
  import opened IngressListeners
  import opened Backends
  import opened PathMaps
  import opened BuildSpec

  // ---------------------------------------------------------------- one ingress rule

  /** getPathRules. */
  method GetPathRules(ctx: Context, env: Env, i: nat, r: nat, id: ListenerId, protocol: Protocol)
    returns (rules: seq<PRule>)
    requires EnvFits(ctx, env) && HttpRule(ctx, i, r)
    ensures rules == PathRulesOf(ctx, env, i, r, id, protocol)
  {
    rules := [];
    for p := 0 to NumPaths(ctx, i, r)
      invariant rules == PathRulesUpTo(ctx, env, i, r, id, protocol, p)
    {
      var pr := PathRuleAt(ctx, env, i, r, id, protocol, p);
      if pr.Some? {
        rules := rules + [pr.value];
      }
    }
  }

  /** getDefaultFromRule's search: the last path that sets a default, else the ingress' own backend. */
  method FindDefaultBackend(ctx: Context, i: nat, r: nat) returns (b: Option<BackendId>)
    requires HttpRule(ctx, i, r)
    ensures b == DefaultBackend(ctx, i, r)
  {
    b := if ctx.ingresses[i].backend.Some? then Some(DefaultOf(i)) else None;
    for p := 0 to NumPaths(ctx, i, r)
      invariant var last := LastDefaultPath(ctx, i, r, p);
        b == if 0 <= last then Some(PathOf(i, r, last)) else if ctx.ingresses[i].backend.Some?
          then Some(DefaultOf(i)) else None
    {
      if IsDefaultPath(PathAt(ctx, i, r, p).path) {
        b := Some(PathOf(i, r, p));
      }
    }
  }

  /** getPathMap. */
  method GetPathMap(ctx: Context, env: Env, i: nat, r: nat, id: ListenerId, protocol: Protocol) returns (m: Props)
    requires EnvFits(ctx, env) && HttpRule(ctx, i, r)
    ensures m == Contribution(ctx, env, i, r, id, protocol)
  {
    var redirect := RedirectFor(ctx, env, i, id, protocol);
    m := PathMapProps(None, None, None, None, None);
    if redirect.Some? {
      m := m.(redirect := redirect);
    } else {
      var b := FindDefaultBackend(ctx, i, r);
      if b.Some? && b.value in env.pairs {
        var pair := env.pairs[b.value];
        m := m.(pool := Some(PoolFor(ctx, b.value, pair)), settings := Some(SettingFor(ctx, b.value, pair).name));
      } else {
        m := m.(pool := Some(DefaultPoolName), settings := Some(DefaultSettingsName));
      }
    }
    var rules := GetPathRules(ctx, env, i, r, id, protocol);
    m := m.(pathRules := Some(rules));
  }

  // ---------------------------------------------------------------- path map objects

  class PathMapObject {
    const name: Id
    var props: Props

    constructor (name: Id, props: Props)
      ensures this.name == name && this.props == props
    {
      this.name := name;
      this.props := props;
    }
  }

  /** mergePathMap, in place. */
  method MergePathMap(existing: PathMapObject, c: Props)
    modifies existing
    ensures existing.props == MergeInto(old(existing.props), c)
  {
    if c.pool.Some? && c.pool.value != DefaultPoolName {
      existing.props := existing.props.(pool := c.pool);
    }
    if c.settings.Some? && c.settings.value != DefaultSettingsName {
      existing.props := existing.props.(settings := c.settings);
    }
    if c.redirect.Some? {
      existing.props := existing.props.(redirect := c.redirect, pool := None, settings := None);
    }
    if c.pathRules.None? || |c.pathRules.value| == 0 { return; }
    if existing.props.pathRules.None? {
      assert [] + c.pathRules.value == c.pathRules.value;
      existing.props := existing.props.(pathRules := c.pathRules);
    } else {
      existing.props := existing.props.(pathRules := Some(existing.props.pathRules.value + c.pathRules.value));
    }
  }

  ghost function Objects(maps: map<ListenerId, PathMapObject>): set<PathMapObject> {
    set id | id in maps :: maps[id]
  }

  /** Each identifier has an object of its own, named after it. */
  ghost predicate OwnObjects(maps: map<ListenerId, PathMapObject>) {
    && (forall id :: id in maps ==> maps[id].name == PathMapName(id))
    && (forall p, q :: p in maps && q in maps && p != q ==> maps[p] != maps[q])
  }

  /** What the objects hold. */
  ghost predicate Shows(maps: map<ListenerId, PathMapObject>, view: map<ListenerId, Props>)
    reads Objects(maps)
  {
    maps.Keys == view.Keys && forall id :: id in maps ==> maps[id].props == view[id]
  }

  /** `view` is the state of all path maps after `steps`. */
  ghost predicate After(ctx: Context, env: Env, steps: seq<Step>, view: map<ListenerId, Props>)
    requires EnvFits(ctx, env)
  {
    forall id :: (id in view <==> MapAfter(ctx, env, steps, id).Some?) && (id in view ==>
      MapAfter(ctx, env, steps, id) == Some(view[id]))
  }

  lemma MapAfterSnoc(ctx: Context, env: Env, steps: seq<Step>, s: Step, id: ListenerId)
    requires EnvFits(ctx, env)
    ensures MapAfter(ctx, env, steps + [s], id) == StepAt(ctx, env, s, id, MapAfter(ctx, env, steps, id))
  {
    assert (steps + [s])[..|steps|] == steps;
  }

  function Next(view: map<ListenerId, Props>, id: ListenerId, c: Props): Props {
    MergeInto(if id in view then view[id] else FRESH, c)
  }

  /** A step of a rule changes exactly the maps of the listeners it serves. */
  lemma RuleStep(ctx: Context, env: Env, steps: seq<Step>, s: Step, view: map<ListenerId, Props>,
                 cs: map<ListenerId, Props>)
    requires EnvFits(ctx, env) && After(ctx, env, steps, view) && s.OneRule?
    requires forall id :: id in cs <==> StepServes(ctx, s, id)
    requires forall id :: id in cs ==> cs[id] == StepContribution(ctx, env, s, id)
    ensures After(ctx, env, steps + [s], view + map id | id in cs :: Next(view, id, cs[id]))
  {
    forall id { RuleStepFor(ctx, env, steps, s, id, view, cs, view + map id | id in cs :: Next(view, id, cs[id])); }
  }

  lemma RuleStepFor(ctx: Context, env: Env, steps: seq<Step>, s: Step, id: ListenerId,
                    view: map<ListenerId, Props>, cs: map<ListenerId, Props>, next: map<ListenerId, Props>)
    requires EnvFits(ctx, env) && s.OneRule? && (id in cs <==> StepServes(ctx, s, id))
    requires id in cs ==> cs[id] == StepContribution(ctx, env, s, id)
    requires MapAfter(ctx, env, steps, id) == if id in view then Some(view[id]) else None
    requires id in next <==> id in view || id in cs
    requires id in next ==> next[id] == if id in cs then Next(view, id, cs[id]) else view[id]
    ensures MapAfter(ctx, env, steps + [s], id) == if id in next then Some(next[id]) else None
  {
    MapAfterSnoc(ctx, env, steps, s, id);
    RuleStepAt(ctx, env, s, id, view, cs);
  }

  lemma RuleStepAt(ctx: Context, env: Env, s: Step, id: ListenerId, view: map<ListenerId, Props>,
                   cs: map<ListenerId, Props>)
    requires EnvFits(ctx, env) && s.OneRule? && (id in cs <==> StepServes(ctx, s, id))
    requires id in cs ==> cs[id] == StepContribution(ctx, env, s, id)
    ensures StepAt(ctx, env, s, id, if id in view then Some(view[id]) else None) ==
      if id in cs then Some(Next(view, id, cs[id])) else if id in view then Some(view[id]) else None
  {
  }

  /** A rule that is not an HTTP rule changes nothing. */
  lemma SkippedStep(ctx: Context, env: Env, steps: seq<Step>, s: Step, view: map<ListenerId, Props>)
    requires EnvFits(ctx, env) && After(ctx, env, steps, view) && s.OneRule? && !HttpRule(ctx, s.i, s.r)
    ensures After(ctx, env, steps + [s], view)
  {
    forall id { MapAfterSnoc(ctx, env, steps, s, id); }
  }

  /** An ingress without rules changes at most the default listener's map. */
  lemma BareStep(ctx: Context, env: Env, steps: seq<Step>, i: nat, view: map<ListenerId, Props>)
    requires EnvFits(ctx, env) && After(ctx, env, steps, view)
    ensures After(ctx, env, steps + [NoRules(i)],
                  if Overwrites(ctx, env, NoRules(i)) then view[DefaultListener() := BareProps(ctx, env, i)] else view)
  {
    forall id { MapAfterSnoc(ctx, env, steps, NoRules(i), id); }
  }

  /** noRulesIngress. */
  method NoRulesIngress(ctx: Context, env: Env, i: nat, before: map<ListenerId, PathMapObject>,
                        ghost view: map<ListenerId, Props>)
    returns (maps: map<ListenerId, PathMapObject>)
    requires OwnObjects(before) && Shows(before, view)
    ensures OwnObjects(maps) && fresh(Objects(maps) - Objects(before))
    ensures Shows(maps, if Overwrites(ctx, env, NoRules(i))
      then view[DefaultListener() := BareProps(ctx, env, i)] else view)
  {
    maps := before;
    if Overwrites(ctx, env, NoRules(i)) {
      var o := new PathMapObject(PathMapName(DefaultListener()), BareProps(ctx, env, i));
      assert o !in Objects(before);
      maps := before[DefaultListener() := o];
    }
  }

  /** One listener of one rule: its object is created if missing, then merged into. */
  method AddToListener(id: ListenerId, c: Props, before: map<ListenerId, PathMapObject>,
                       ghost view: map<ListenerId, Props>)
    returns (maps: map<ListenerId, PathMapObject>)
    requires OwnObjects(before) && Shows(before, view)
    modifies Objects(before)
    ensures OwnObjects(maps) && fresh(Objects(maps) - Objects(before))
    ensures Shows(maps, view[id := Next(view, id, c)])
  {
    maps := before;
    if id !in maps {
      var o := new PathMapObject(PathMapName(id), FRESH);
      assert o !in Objects(before);
      maps := maps[id := o];
    }
    assert forall other :: other in before && other != id ==> maps[other] == before[other] && before[other] != maps[id];
    MergePathMap(maps[id], c);
  }

  /** What one rule brings to each listener it serves. */
  ghost function ContributionMap(ctx: Context, env: Env, i: nat, r: nat,
                                 own: map<ListenerId, AzConfig>): map<ListenerId, Props>
    requires EnvFits(ctx, env) && HttpRule(ctx, i, r)
  {
    map id | id in own :: Contribution(ctx, env, i, r, id, own[id].protocol)
  }

  method ContributionTo(ctx: Context, env: Env, i: nat, r: nat, ghost own: map<ListenerId, AzConfig>,
                        id: ListenerId, c: AzConfig)
    returns (m: Props)
    requires EnvFits(ctx, env) && HttpRule(ctx, i, r) && id in own && c == own[id]
    ensures m == ContributionMap(ctx, env, i, r, own)[id]
  {
    m := GetPathMap(ctx, env, i, r, id, c.protocol);
  }

  method CollectContributions(ctx: Context, env: Env, i: nat, r: nat, own: map<ListenerId, AzConfig>)
    returns (cs: map<ListenerId, Props>)
    requires EnvFits(ctx, env) && HttpRule(ctx, i, r)
    ensures cs == ContributionMap(ctx, env, i, r, own)
  {
    cs := map[];
    var order, values := ValuesInMapOrder(own);
    ghost var goal := ContributionMap(ctx, env, i, r, own);
    for k := 0 to |order|
      invariant forall id :: id in cs <==> id in order[..k]
      invariant forall id :: id in cs ==> id in goal && cs[id] == goal[id]
    {
      assert order[..k + 1] == order[..k] + [order[k]];
      var c := ContributionTo(ctx, env, i, r, own, order[k], values[k]);
      cs := cs[order[k] := c];
    }
    assert order[..|order|] == order;
  }

  method ContributionsOf(ctx: Context, env: Env, i: nat, r: nat) returns (cs: map<ListenerId, Props>)
    requires EnvFits(ctx, env) && HttpRule(ctx, i, r)
    ensures forall id :: id in cs <==> Serves(ctx, i, r, id)
    ensures forall id :: id in cs ==> cs[id] == StepContribution(ctx, env, OneRule(i, r), id)
  {
    cs := CollectContributions(ctx, env, i, r, ProcessRule(ctx, ctx.ingresses[i], ctx.ingresses[i].rules[r]));
  }

  /** The maps when the first `k` of the visited listeners have been merged. */
  ghost function Midway(view: map<ListenerId, Props>, next: map<ListenerId, Props>, order: seq<ListenerId>,
                        k: nat): map<ListenerId, Props>
    requires k <= |order| && forall id :: id in order ==> id in next
  {
    if k == 0 then view else Midway(view, next, order, k - 1)[order[k - 1] := next[order[k - 1]]]
  }

  lemma {:induction false} MidwayIs(view: map<ListenerId, Props>, next: map<ListenerId, Props>,
                                    order: seq<ListenerId>, k: nat, id: ListenerId)
    requires k <= |order| && forall x :: x in order ==> x in next
    ensures id in Midway(view, next, order, k) <==> id in view || id in order[..k]
    ensures id in order[..k] ==> Midway(view, next, order, k)[id] == next[id]
    ensures id in view && id !in order[..k] ==> Midway(view, next, order, k)[id] == view[id]
  {
    if k > 0 {
      MidwayIs(view, next, order, k - 1, id);
      assert order[..k] == order[..k - 1] + [order[k - 1]];
    }
  }

  lemma MidwayDone(view: map<ListenerId, Props>, next: map<ListenerId, Props>, order: seq<ListenerId>)
    requires forall x :: x in order <==> x in next
    ensures Midway(view, next, order, |order|) == view + next
  {
    assert order[..|order|] == order;
    forall id { MidwayIs(view, next, order, |order|, id); }
  }

  /** Merging the contributions of one rule, listener by listener in map order. */
  method AddRule(cs: map<ListenerId, Props>, before: map<ListenerId, PathMapObject>, ghost view: map<ListenerId, Props>)
    returns (maps: map<ListenerId, PathMapObject>)
    requires OwnObjects(before) && Shows(before, view)
    modifies Objects(before)
    ensures OwnObjects(maps) && fresh(Objects(maps) - Objects(before))
    ensures Shows(maps, view + map id | id in cs :: Next(view, id, cs[id]))
  {
    maps := before;
    ghost var next := map id | id in cs :: Next(view, id, cs[id]);
    var order, values := ValuesInMapOrder(cs);
    for k := 0 to |order|
      invariant OwnObjects(maps) && fresh(Objects(maps) - Objects(before))
      invariant Shows(maps, Midway(view, next, order, k))
    {
      MidwayIs(view, next, order, k, order[k]);
      assert order[k] !in order[..k];
      maps := AddToListener(order[k], values[k], maps, Midway(view, next, order, k));
    }
    MidwayDone(view, next, order);
  }

  // ---------------------------------------------------------------- all ingresses

  lemma StepsOfSnoc(ctx: Context, i: nat, r: nat)
    requires i < |ctx.ingresses| && r < |ctx.ingresses[i].rules|
    ensures StepsOf(ctx, i)[..r + 1] == StepsOf(ctx, i)[..r] + [OneRule(i, r)]
  {
  }

  /** The rules of one ingress. */
  method AddIngress(ctx: Context, env: Env, i: nat, ghost done: seq<Step>, before: map<ListenerId, PathMapObject>,
                    ghost view: map<ListenerId, Props>)
    returns (maps: map<ListenerId, PathMapObject>, ghost view': map<ListenerId, Props>)
    requires EnvFits(ctx, env) && i < |ctx.ingresses| && OwnObjects(before) && Shows(before, view)
    requires After(ctx, env, done, view)
    modifies Objects(before)
    ensures OwnObjects(maps) && fresh(Objects(maps) - Objects(before))
    ensures Shows(maps, view') && After(ctx, env, done + StepsOf(ctx, i), view')
  {
    maps, view' := before, view;
    var ing := ctx.ingresses[i];
    if |ing.rules| == 0 {
      BareStep(ctx, env, done, i, view);
      maps := NoRulesIngress(ctx, env, i, before, view);
      view' := if Overwrites(ctx, env, NoRules(i)) then view[DefaultListener() := BareProps(ctx, env, i)] else view;
      return;
    }
    ghost var own := StepsOf(ctx, i);
    assert done + own[..0] == done;
    for r := 0 to |ing.rules|
      invariant OwnObjects(maps) && fresh(Objects(maps) - Objects(before))
      invariant Shows(maps, view') && After(ctx, env, done + own[..r], view')
    {
      StepsOfSnoc(ctx, i, r);
      assert done + own[..r + 1] == (done + own[..r]) + [OneRule(i, r)];
      if ing.rules[r].http.None? {
        SkippedStep(ctx, env, done + own[..r], OneRule(i, r), view');
        continue;
      }
      var cs := ContributionsOf(ctx, env, i, r);
      RuleStep(ctx, env, done + own[..r], OneRule(i, r), view', cs);
      maps := AddRule(cs, maps, view');
      view' := view' + map id | id in cs :: Next(view', id, cs[id]);
    }
    assert own[..|ing.rules|] == own;
  }

  /** getPathMaps' loops over ingresses and rules. */
  method AddIngresses(ctx: Context, env: Env)
    returns (maps: map<ListenerId, PathMapObject>, ghost view: map<ListenerId, Props>)
    requires EnvFits(ctx, env)
    ensures OwnObjects(maps) && Shows(maps, view) && After(ctx, env, Steps(ctx), view)
    ensures fresh(Objects(maps))
  {
    maps, view := map[], map[];
    for i := 0 to |ctx.ingresses|
      invariant OwnObjects(maps) && fresh(Objects(maps))
      invariant Shows(maps, view) && After(ctx, env, StepsUpTo(ctx, i), view)
    {
      maps, view := AddIngress(ctx, env, i, StepsUpTo(ctx, i), maps, view);
    }
  }

  lemma FinalView(ctx: Context, env: Env, view: map<ListenerId, Props>)
    requires EnvFits(ctx, env) && After(ctx, env, Steps(ctx), view)
    ensures view == map[] ==> PathMapsPass(ctx, env, map[DefaultListener() := EMPTY])
    ensures view != map[] ==> PathMapsPass(ctx, env, view)
  {
    if view != map[] {
      var id :| id in view;
      assert MapAfter(ctx, env, Steps(ctx), id).Some?;
      assert AnyMap(ctx, env);
    } else {
      assert forall id :: id !in view;
      assert !AnyMap(ctx, env);
    }
  }

  /** getPathMaps: path maps by listener, with a default one when there is none. */
  method GetPathMaps(ctx: Context, env: Env)
    returns (maps: map<ListenerId, PathMapObject>, ghost view: map<ListenerId, Props>)
    requires EnvFits(ctx, env)
    ensures OwnObjects(maps) && Shows(maps, view) && PathMapsPass(ctx, env, view)
    ensures fresh(Objects(maps))
  {
    maps, view := AddIngresses(ctx, env);
    FinalView(ctx, env, view);
    if |maps| == 0 {
      assert maps == map[] && view == map[];
      var o := new PathMapObject(PathMapName(DefaultListener()), EMPTY);
      maps, view := map[DefaultListener() := o], map[DefaultListener() := EMPTY];
    } else {
      assert view != map[] by { assert |view.Keys| == |maps.Keys|; }
    }
  }

  // ---------------------------------------------------------------- rules

  /** The rule to make for each identifier with a path map and a listener. */
  ghost function RulesToMake(view: map<ListenerId, Props>, byId: map<ListenerId, Listener>): map<ListenerId, Rule> {
    map id | id in view && id in byId :: RuleFor(id, view[id], byId[id])
  }

  /** The path map to keep for each of them that has path rules. */
  ghost function PathMapsToKeep(view: map<ListenerId, Props>,
                                byId: map<ListenerId, Listener>): map<ListenerId, UrlPathMap> {
    map id | id in view && id in byId && RulesIn(view[id]) != [] :: UrlPathMap(PathMapName(id), view[id])
  }

  /** One round of getRules' loop. */
  method VisitPathMap(id: ListenerId, m: PathMapObject, byId: map<ListenerId, Listener>,
                      ghost view: map<ListenerId, Props>)
    returns (rule: Option<Rule>, pathMap: Option<UrlPathMap>)
    requires m.name == PathMapName(id) && id in view && m.props == view[id]
    ensures rule == if id in RulesToMake(view, byId) then Some(RulesToMake(view, byId)[id]) else None
    ensures pathMap == if id in PathMapsToKeep(view, byId) then Some(PathMapsToKeep(view, byId)[id]) else None
  {
    if id !in byId { return None, None; }
    rule, pathMap := Some(RuleFor(id, m.props, byId[id])), None;
    if m.props.pathRules.Some? && |m.props.pathRules.value| != 0 {
      pathMap := Some(UrlPathMap(m.name, m.props));
    }
  }

  /** getRules' loop over the path maps, in map order. */
  method VisitPathMaps(maps: map<ListenerId, PathMapObject>, byId: map<ListenerId, Listener>,
                       ghost view: map<ListenerId, Props>)
    returns (ghost ruleIds: seq<ListenerId>, rules: seq<Rule>, ghost pathIds: seq<ListenerId>,
             pathMaps: seq<UrlPathMap>)
    requires OwnObjects(maps) && Shows(maps, view)
    ensures RulesPass(view, byId, ruleIds, rules, pathIds, pathMaps)
  {
    ruleIds, rules, pathIds, pathMaps := [], [], [], [];
    ghost var made, kept := RulesToMake(view, byId), PathMapsToKeep(view, byId);
    var order := VisitOrder(maps.Keys);
    for k := 0 to |order|
      invariant Picked(order, k, made, ruleIds, rules)
      invariant Picked(order, k, kept, pathIds, pathMaps)
    {
      var id := order[k];
      assert id in maps;
      PickedSnoc(order, k, made, ruleIds, rules);
      PickedSnoc(order, k, kept, pathIds, pathMaps);
      var rule, pathMap := VisitPathMap(id, maps[id], byId, view);
      if rule.Some? {
        rules, ruleIds := rules + [rule.value], ruleIds + [id];
      }
      if pathMap.Some? {
        pathMaps, pathIds := pathMaps + [pathMap.value], pathIds + [id];
      }
    }
    PickedAll(view, byId, order, ruleIds, rules, pathIds, pathMaps);
  }

  lemma PickedAll(view: map<ListenerId, Props>, byId: map<ListenerId, Listener>, order: seq<ListenerId>,
                  ruleIds: seq<ListenerId>, rules: seq<Rule>, pathIds: seq<ListenerId>, pathMaps: seq<UrlPathMap>)
    requires Picked(order, |order|, RulesToMake(view, byId), ruleIds, rules)
    requires Picked(order, |order|, PathMapsToKeep(view, byId), pathIds, pathMaps)
    requires forall id :: id in order <==> id in view
    ensures RulesPass(view, byId, ruleIds, rules, pathIds, pathMaps)
  {
    assert order[..|order|] == order;
  }

  lemma RulesPermuted(maps: map<ListenerId, Props>, byId: map<ListenerId, Listener>, ruleIds: seq<ListenerId>,
                      rules: seq<Rule>,
                      pathIds: seq<ListenerId>, pathMaps: seq<UrlPathMap>, perm: seq<int>, pathPerm: seq<int>)
    requires RulesPass(maps, byId, ruleIds, rules, pathIds, pathMaps)
    requires Permutation(perm, |rules|) && Permutation(pathPerm, |pathMaps|)
    ensures RulesPass(maps, byId,
                      Permuted(ruleIds, perm), Permuted(rules, perm),
                      Permuted(pathIds, pathPerm), Permuted(pathMaps, pathPerm))
  {
    PermutedIs(ruleIds, perm);
    PermutedIs(pathIds, pathPerm);
  }

  /** getRules, and the sorting of RequestRoutingRules. */
  method ComputeRules(ctx: Context, maps: map<ListenerId, PathMapObject>, byId: map<ListenerId, Listener>,
                      ghost view: map<ListenerId, Props>)
    returns (ghost ruleIds: seq<ListenerId>, rules: seq<Rule>, ghost pathIds: seq<ListenerId>,
             pathMaps: seq<UrlPathMap>)
    requires OwnObjects(maps) && Shows(maps, view)
    ensures RulesPass(view, byId, ruleIds, rules, pathIds, pathMaps)
    ensures Sorted(rules, RuleRank(ctx)) && Sorted(pathMaps, PathMapRank(ctx))
  {
    var someRules, somePathMaps;
    ruleIds, someRules, pathIds, somePathMaps := VisitPathMaps(maps, byId, view);
    ghost var perm, pathPerm;
    rules, perm := SortBy(someRules, RuleRank(ctx));
    pathMaps, pathPerm := SortBy(somePathMaps, PathMapRank(ctx));
    RulesPermuted(view, byId, ruleIds, someRules, pathIds, somePathMaps, perm, pathPerm);
    ruleIds, pathIds := Permuted(ruleIds, perm), Permuted(pathIds, pathPerm);
  }
}
