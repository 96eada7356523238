/**
 The URL path maps of the listeners: what each ingress rule contributes, and what
 merging the contributions one after the other amounts to
 (pkg/appgw/requestroutingrules.go).
 */
module PathMaps {
  import opened Resources
  import opened RoutingTypes
  import opened IngressListeners
  import opened Backends

  /** What earlier passes settled: the backends' port pairs and the redirects that exist. */
  datatype Env = Env(pairs: map<BackendId, PortPair>, redirects: set<Id>)

  ghost predicate EnvFits(ctx: Context, env: Env) {
    forall b :: b in env.pairs ==> Exists(ctx, b)
  }

  // ---------------------------------------------------------------- one ingress rule

  /** Paths that set the listener's default instead of a path rule. */
  predicate IsDefaultPath(path: string) {
    path == "" || path == "/*" || path == "/"
  }

  /** The redirect to attach for an ingress to a listener, if it asks for one and it exists. */
  function RedirectFor(ctx: Context, env: Env, i: nat, id: ListenerId, protocol: Protocol): Option<Id>
    requires i < |ctx.ingresses|
  {
    var target := RedirectName(id.(port := HTTPS_PORT));
    if ctx.ingresses[i].sslRedirect && protocol == HTTP && target in env.redirects then Some(target) else None
  }

  function PathAt(ctx: Context, i: nat, r: nat, p: nat): Path
    requires Exists(ctx, PathOf(i, r, p))
  {
    ctx.ingresses[i].rules[r].http.value[p]
  }

  /** One round of getPathRules' loop. */
  function PathRuleAt(ctx: Context, env: Env, i: nat, r: nat, id: ListenerId, protocol: Protocol, p: nat): Option<PRule>
    requires EnvFits(ctx, env) && Exists(ctx, PathOf(i, r, p))
  {
    var ing, path, b := ctx.ingresses[i], PathAt(ctx, i, r, p).path, PathOf(i, r, p);
    var bare := PathRule(PathRuleName(ing.ns, ing.name, p), Some([path]), None, None, None, ing.wafPolicy);
    var redirect := RedirectFor(ctx, env, i, id, protocol);
    if IsDefaultPath(path) then None
    else if redirect.Some? then Some(bare.(redirect := redirect))
    else if b in env.pairs then
      Some(bare.(pool := Some(PoolFor(ctx, b, env.pairs[b])), settings := Some(SettingFor(ctx, b, env.pairs[b]).name)))
    else None
  }

  function NumPaths(ctx: Context, i: nat, r: nat): nat
    requires HttpRule(ctx, i, r)
  {
    |ctx.ingresses[i].rules[r].http.value|
  }

  function PathRulesUpTo(ctx: Context, env: Env, i: nat, r: nat, id: ListenerId, protocol: Protocol, n: nat): seq<PRule>
    requires EnvFits(ctx, env) && HttpRule(ctx, i, r) && n <= NumPaths(ctx, i, r)
  {
    if n == 0 then []
    else
      var before := PathRulesUpTo(ctx, env, i, r, id, protocol, n - 1);
      match PathRuleAt(ctx, env, i, r, id, protocol, n - 1)
      case None => before
      case Some(pr) => before + [pr]
  }

  /** getPathRules. */
  function PathRulesOf(ctx: Context, env: Env, i: nat, r: nat, id: ListenerId, protocol: Protocol): seq<PRule>
    requires EnvFits(ctx, env) && HttpRule(ctx, i, r)
  {
    PathRulesUpTo(ctx, env, i, r, id, protocol, NumPaths(ctx, i, r))
  }

  /** The last of the first `n` paths that sets a default, or -1. */
  function LastDefaultPath(ctx: Context, i: nat, r: nat, n: nat): (p: int)
    requires HttpRule(ctx, i, r) && n <= NumPaths(ctx, i, r)
    ensures -1 <= p < n
    ensures 0 <= p ==> IsDefaultPath(PathAt(ctx, i, r, p).path)
    ensures forall q :: p < q < n ==> !IsDefaultPath(PathAt(ctx, i, r, q).path)
  {
    if n == 0 then -1
    else if IsDefaultPath(PathAt(ctx, i, r, n - 1).path) then n - 1
    else LastDefaultPath(ctx, i, r, n - 1)
  }

  function DefaultBackend(ctx: Context, i: nat, r: nat): Option<BackendId>
    requires HttpRule(ctx, i, r)
  {
    var p := LastDefaultPath(ctx, i, r, NumPaths(ctx, i, r));
    if 0 <= p then Some(PathOf(i, r, p))
    else if ctx.ingresses[i].backend.Some? then Some(DefaultOf(i))
    else None
  }

  /** getPathMap with getDefaultFromRule: what rule `r` of ingress `i` brings to listener `id`. */
  function Contribution(ctx: Context, env: Env, i: nat, r: nat, id: ListenerId, protocol: Protocol): Props
    requires EnvFits(ctx, env) && HttpRule(ctx, i, r)
  {
    var rules := Some(PathRulesOf(ctx, env, i, r, id, protocol));
    var redirect, b := RedirectFor(ctx, env, i, id, protocol), DefaultBackend(ctx, i, r);
    if redirect.Some? then PathMapProps(None, None, redirect, None, rules)
    else if b.Some? && b.value in env.pairs then
      PathMapProps(Some(PoolFor(ctx, b.value, env.pairs[b.value])),
                   Some(SettingFor(ctx, b.value, env.pairs[b.value]).name), None, None, rules)
    else PathMapProps(Some(DefaultPoolName), Some(DefaultSettingsName), None, None, rules)
  }

  // ---------------------------------------------------------------- merging contributions

  function RulesIn(p: Props): seq<PRule> {
    if p.pathRules.None? then [] else p.pathRules.value
  }

  /** mergePathMap. */
  function MergeInto(prior: Props, c: Props): Props {
    var a := if c.pool.Some? && c.pool.value != DefaultPoolName then prior.(pool := c.pool) else prior;
    var b := if c.settings.Some? && c.settings.value != DefaultSettingsName then a.(settings := c.settings) else a;
    var d := if c.redirect.Some? then b.(redirect := c.redirect, pool := None, settings := None) else b;
    if RulesIn(c) == [] then d
    else d.(pathRules := Some(RulesIn(prior) + RulesIn(c)))
  }

  /** A listener's path map before its first contribution. */
  const FRESH: Props := PathMapProps(Some(DefaultPoolName), Some(DefaultSettingsName), None, None, None)

  function MergeSeq(base: Props, cs: seq<Props>): Props {
    if cs == [] then base else MergeInto(MergeSeq(base, cs[..|cs| - 1]), cs[|cs| - 1])
  }

  function AllRules(cs: seq<Props>): seq<PRule> {
    if cs == [] then [] else AllRules(cs[..|cs| - 1]) + RulesIn(cs[|cs| - 1])
  }

  function LastRedirect(cs: seq<Props>): Option<Id> {
    if cs == [] then None
    else if cs[|cs| - 1].redirect.Some? then cs[|cs| - 1].redirect
    else LastRedirect(cs[..|cs| - 1])
  }

  /** The last pool named after the last redirect, default pools aside. */
  function LastPool(base: Option<Id>, cs: seq<Props>): Option<Id> {
    if cs == [] then base
    else
      var c := cs[|cs| - 1];
      if c.redirect.Some? then None
      else if c.pool.Some? && c.pool.value != DefaultPoolName then c.pool
      else LastPool(base, cs[..|cs| - 1])
  }

  function LastSettings(base: Option<Id>, cs: seq<Props>): Option<Id> {
    if cs == [] then base
    else
      var c := cs[|cs| - 1];
      if c.redirect.Some? then None
      else if c.settings.Some? && c.settings.value != DefaultSettingsName then c.settings
      else LastSettings(base, cs[..|cs| - 1])
  }

  /** Merging one by one is the flat concatenation; a redirect once set stays; and without a
      redirect both default pool and default settings are set. */
  lemma {:induction false} MergeSeqIsFlat(base: Props, cs: seq<Props>)
    requires base.redirect.None? && base.pool.Some? && base.settings.Some?
    ensures var m := MergeSeq(base, cs);
      && RulesIn(m) == RulesIn(base) + AllRules(cs)
      && m.redirect == LastRedirect(cs)
      && m.pool == LastPool(base.pool, cs)
      && m.settings == LastSettings(base.settings, cs)
      && m.rewrite == base.rewrite
      && (m.redirect.None? ==> m.pool.Some? && m.settings.Some?)
  {
    if cs != [] {
      MergeSeqIsFlat(base, cs[..|cs| - 1]);
    }
  }

  // ---------------------------------------------------------------- the whole list of ingresses

  /** What getPathMaps does in order: an ingress without rules, or one rule of an ingress. */
  datatype Step = NoRules(i: nat) | OneRule(i: nat, r: nat)

  function StepsOf(ctx: Context, i: nat): seq<Step>
    requires i < |ctx.ingresses|
  {
    var n := |ctx.ingresses[i].rules|;
    if n == 0 then [NoRules(i)] else seq(n, r requires 0 <= r < n => OneRule(i, r))
  }

  function StepsUpTo(ctx: Context, n: nat): seq<Step>
    requires n <= |ctx.ingresses|
  {
    if n == 0 then [] else StepsUpTo(ctx, n - 1) + StepsOf(ctx, n - 1)
  }

  function Steps(ctx: Context): seq<Step> {
    StepsUpTo(ctx, |ctx.ingresses|)
  }

  /** An ingress without rules whose default backend resolved: it overwrites the default listener's map. */
  predicate Overwrites(ctx: Context, env: Env, s: Step) {
    s.NoRules? && Exists(ctx, DefaultOf(s.i)) && DefaultOf(s.i) in env.pairs
  }

  /** noRulesIngress: the pool is named without checking that it exists. */
  function BareProps(ctx: Context, env: Env, i: nat): Props
    requires Overwrites(ctx, env, NoRules(i))
  {
    var pool := OwnPoolName(ctx, DefaultOf(i), env.pairs[DefaultOf(i)]);
    PathMapProps(Some(pool), Some(DefaultSettingsName), None, None, Some([]))
  }

  predicate StepServes(ctx: Context, s: Step, id: ListenerId) {
    s.OneRule? && Serves(ctx, s.i, s.r, id)
  }

  /** The protocol the step's rule asks of the listener. */
  function StepProtocol(ctx: Context, s: Step, id: ListenerId): Protocol
    requires StepServes(ctx, s, id)
  {
    ProcessRule(ctx, ctx.ingresses[s.i], ctx.ingresses[s.i].rules[s.r])[id].protocol
  }

  function StepContribution(ctx: Context, env: Env, s: Step, id: ListenerId): Props
    requires EnvFits(ctx, env) && StepServes(ctx, s, id)
  {
    Contribution(ctx, env, s.i, s.r, id, StepProtocol(ctx, s, id))
  }

  /** One step of getPathMaps, seen at one listener. */
  function StepAt(ctx: Context, env: Env, s: Step, id: ListenerId, prior: Option<Props>): Option<Props>
    requires EnvFits(ctx, env)
  {
    if Overwrites(ctx, env, s) && id == DefaultListener() then Some(BareProps(ctx, env, s.i))
    else if StepServes(ctx, s, id) then
      Some(MergeInto(if prior.Some? then prior.value else FRESH, StepContribution(ctx, env, s, id)))
    else prior
  }

  /** The path map of one listener after a number of steps. */
  function MapAfter(ctx: Context, env: Env, steps: seq<Step>, id: ListenerId): Option<Props>
    requires EnvFits(ctx, env)
  {
    if steps == [] then None
    else StepAt(ctx, env, steps[|steps| - 1], id, MapAfter(ctx, env, steps[..|steps| - 1], id))
  }

  /** The contributions to `id` since its map was last overwritten, in ingress and rule order. */
  function ContributionsTo(ctx: Context, env: Env, steps: seq<Step>, id: ListenerId): seq<Props>
    requires EnvFits(ctx, env)
  {
    if steps == [] then []
    else
      var s, before := steps[|steps| - 1], ContributionsTo(ctx, env, steps[..|steps| - 1], id);
      if Overwrites(ctx, env, s) && id == DefaultListener() then []
      else if StepServes(ctx, s, id) then before + [StepContribution(ctx, env, s, id)]
      else before
  }

  /** The map `id` starts from: that of the last overwriting ingress, or a fresh one. */
  function BaseOf(ctx: Context, env: Env, steps: seq<Step>, id: ListenerId): Props
    requires EnvFits(ctx, env)
  {
    if steps == [] then FRESH
    else
      var s := steps[|steps| - 1];
      if Overwrites(ctx, env, s) && id == DefaultListener() then BareProps(ctx, env, s.i)
      else BaseOf(ctx, env, steps[..|steps| - 1], id)
  }

  ghost predicate Overwritten(ctx: Context, env: Env, steps: seq<Step>, id: ListenerId) {
    id == DefaultListener() && exists k :: 0 <= k < |steps| && Overwrites(ctx, env, steps[k])
  }

  ghost predicate Served(ctx: Context, steps: seq<Step>, id: ListenerId) {
    exists k :: 0 <= k < |steps| && StepServes(ctx, steps[k], id)
  }

  lemma {:induction false} BaseFacts(ctx: Context, env: Env, steps: seq<Step>, id: ListenerId)
    requires EnvFits(ctx, env)
    ensures var base := BaseOf(ctx, env, steps, id);
            base.redirect.None? && base.pool.Some? && base.settings.Some? && RulesIn(base) == []
    ensures !Overwritten(ctx, env, steps, id) ==> BaseOf(ctx, env, steps, id) == FRESH
  {
    if steps != [] {
      var n := |steps| - 1;
      BaseFacts(ctx, env, steps[..n], id);
      assert forall k :: 0 <= k < n ==> steps[..n][k] == steps[k];
    }
  }

  lemma ServedSnoc(ctx: Context, steps: seq<Step>, id: ListenerId)
    requires steps != []
    ensures Served(ctx, steps, id) <==> Served(ctx, steps[..|steps| - 1], id) || StepServes(ctx, steps[|steps| - 1], id)
  {
    var p := steps[..|steps| - 1];
    assert forall k :: 0 <= k < |p| ==> p[k] == steps[k];
  }

  lemma OverwrittenSnoc(ctx: Context, env: Env, steps: seq<Step>, id: ListenerId)
    requires steps != []
    ensures Overwritten(ctx, env, steps, id) <==>
      Overwritten(ctx, env, steps[..|steps| - 1], id)
        || (Overwrites(ctx, env, steps[|steps| - 1]) && id == DefaultListener())
  {
    var p := steps[..|steps| - 1];
    assert forall k :: 0 <= k < |p| ==> p[k] == steps[k];
  }

  lemma {:induction false} MapPresent(ctx: Context, env: Env, steps: seq<Step>, id: ListenerId)
    requires EnvFits(ctx, env)
    ensures MapAfter(ctx, env, steps, id).Some? <==> Overwritten(ctx, env, steps, id) || Served(ctx, steps, id)
  {
    if steps != [] {
      MapPresent(ctx, env, steps[..|steps| - 1], id);
      ServedSnoc(ctx, steps, id);
      OverwrittenSnoc(ctx, env, steps, id);
    }
  }

  lemma MergeSeqSnoc(base: Props, cs: seq<Props>, c: Props)
    ensures MergeSeq(base, cs + [c]) == MergeInto(MergeSeq(base, cs), c)
  {
    assert (cs + [c])[..|cs|] == cs;
  }

  /** The incremental merge refines the flat specification. */
  lemma {:induction false} MapAfterIsFlat(ctx: Context, env: Env, steps: seq<Step>, id: ListenerId)
    requires EnvFits(ctx, env)
    ensures var m := MapAfter(ctx, env, steps, id);
      && (m.Some? ==> m.value == MergeSeq(BaseOf(ctx, env, steps, id), ContributionsTo(ctx, env, steps, id)))
      && (m.None? ==> BaseOf(ctx, env, steps, id) == FRESH && ContributionsTo(ctx, env, steps, id) == [])
  {
    if steps != [] {
      var n := |steps| - 1;
      var p, s := steps[..n], steps[n];
      MapAfterIsFlat(ctx, env, p, id);
      if !(Overwrites(ctx, env, s) && id == DefaultListener()) && StepServes(ctx, s, id) {
        MergeSeqSnoc(BaseOf(ctx, env, p, id), ContributionsTo(ctx, env, p, id), StepContribution(ctx, env, s, id));
      }
    }
  }

  // ---------------------------------------------------------------- getPathMaps' result

  /** The map of the default listener when no listener has one. */
  const EMPTY: Props := PathMapProps(Some(DefaultPoolName), Some(DefaultSettingsName), None, None, Some([]))

  ghost predicate AnyMap(ctx: Context, env: Env)
    requires EnvFits(ctx, env)
  {
    exists id :: MapAfter(ctx, env, Steps(ctx), id).Some?
  }

  ghost function FinalMap(ctx: Context, env: Env, id: ListenerId): Option<Props>
    requires EnvFits(ctx, env)
  {
    if !AnyMap(ctx, env) && id == DefaultListener() then Some(EMPTY) else MapAfter(ctx, env, Steps(ctx), id)
  }

  ghost predicate PathMapsPass(ctx: Context, env: Env, maps: map<ListenerId, Props>) {
    && EnvFits(ctx, env)
    && (forall id :: id in maps <==> FinalMap(ctx, env, id).Some?)
    && (forall id :: id in maps ==> maps[id] == FinalMap(ctx, env, id).value)
  }

  lemma {:induction false} StepsAre(ctx: Context, n: nat, s: Step)
    requires n <= |ctx.ingresses|
    ensures s in StepsUpTo(ctx, n) <==>
      && s.i < n
      && (if |ctx.ingresses[s.i].rules| == 0 then s.NoRules? else s.OneRule? && s.r < |ctx.ingresses[s.i].rules|)
  {
    if n > 0 {
      StepsAre(ctx, n - 1, s);
      var own := StepsOf(ctx, n - 1);
      if s in own {
        var k :| 0 <= k < |own| && own[k] == s;
      } else if s.OneRule? && s.i == n - 1 && s.r < |own| {
        assert own[s.r] == s || own == [NoRules(n - 1)];
      }
    }
  }

  lemma ServedIsRequested(ctx: Context, id: ListenerId)
    ensures Served(ctx, Steps(ctx), id) <==> Requested(ctx, id)
  {
    var steps := Steps(ctx);
    if Served(ctx, steps, id) {
      var k :| 0 <= k < |steps| && StepServes(ctx, steps[k], id);
      assert Serves(ctx, steps[k].i, steps[k].r, id);
    }
    if Requested(ctx, id) {
      var i, r :| Serves(ctx, i, r, id);
      StepsAre(ctx, |ctx.ingresses|, OneRule(i, r));
      var k :| 0 <= k < |steps| && steps[k] == OneRule(i, r);
      assert StepServes(ctx, steps[k], id);
    }
  }

  lemma MapIffAsked(ctx: Context, env: Env, id: ListenerId)
    requires EnvFits(ctx, env)
    ensures MapAfter(ctx, env, Steps(ctx), id).Some? <==> Requested(ctx, id) || Overwritten(ctx, env, Steps(ctx), id)
  {
    MapPresent(ctx, env, Steps(ctx), id);
    ServedIsRequested(ctx, id);
  }

  /** Every configured listener has a path map; the only other path map is the default listener's. */
  lemma MapsCoverConfigs(ctx: Context, env: Env, maps: map<ListenerId, Props>, id: ListenerId)
    requires PathMapsPass(ctx, env, maps)
    ensures id in Configs(ctx) ==> id in maps
    ensures id in maps ==> id in Configs(ctx) || id == DefaultListener()
  {
    ConfigsAre(ctx);
    MapIffAsked(ctx, env, id);
    if id in Configs(ctx) && !Requested(ctx, id) && AnyMap(ctx, env) {
      var other :| MapAfter(ctx, env, Steps(ctx), other).Some?;
      MapIffAsked(ctx, env, other);
      assert other == id;
    }
  }
}
