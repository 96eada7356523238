/**
 The post-build validator, and why it never rejects a greenfield build
 (validateURLPathMaps of pkg/appgw/validators.go); where redirects of a build lead
 (pkg/appgw/redirects.go).
 */
module BuildValidation {
  import opened Resources
  import opened RoutingTypes
  import opened IngressListeners
  import opened Backends
  import opened PathMaps
  import opened BuildSpec
  import opened BuildReferences

  datatype ValidationError = NoDefaults | EitherDefaults | NoBackendOrRedirect | EitherBackendOrRedirect

  predicate Backed(pool: Option<Id>, settings: Option<Id>) {
    pool.Some? && settings.Some?
  }

  /** Exactly one of redirect and backend, which is pool and settings together. */
  predicate OneOf(redirect: Option<Id>, pool: Option<Id>, settings: Option<Id>) {
    (redirect.Some? || (pool.Some? && settings.Some?)) && (redirect.None? || pool.None? || settings.None?)
  }

  /** Without path rules the defaults have one target, and with path rules each of those does. */
  predicate Valid(m: Props) {
    if RulesIn(m) == [] then OneOf(m.redirect, m.pool, m.settings)
    else forall pr :: pr in RulesIn(m) ==> OneOf(pr.redirect, pr.pool, pr.settings)
  }

  method ValidatePathRules(rules: seq<PRule>) returns (err: Option<ValidationError>)
    ensures err.None? <==> forall pr :: pr in rules ==> OneOf(pr.redirect, pr.pool, pr.settings)
    ensures err.Some? ==> err.value == NoBackendOrRedirect || err.value == EitherBackendOrRedirect
    ensures err == Some(NoBackendOrRedirect) ==>
      exists pr :: pr in rules && pr.redirect.None? && (pr.pool.None? || pr.settings.None?)
    ensures err == Some(EitherBackendOrRedirect) ==>
      exists pr :: pr in rules && pr.redirect.Some? && pr.pool.Some? && pr.settings.Some?
  {
    for k := 0 to |rules|
      invariant forall pr :: pr in rules[..k] ==> OneOf(pr.redirect, pr.pool, pr.settings)
    {
      var redirect, backend := rules[k].redirect.Some?, Backed(rules[k].pool, rules[k].settings);
      assert rules[k] in rules && rules[..k + 1] == rules[..k] + [rules[k]];
      if !redirect && !backend { return Some(NoBackendOrRedirect); }
      if redirect && backend { return Some(EitherBackendOrRedirect); }
    }
    assert rules[..|rules|] == rules;
    err := None;
  }

  /** How validation ends; a path map without a list of path rules is a nil dereference. */
  datatype Verdict = Accepts | Rejects(error: ValidationError) | Crashes

  /** The first `k` maps pass. */
  ghost predicate PassUpTo(maps: seq<UrlPathMap>, k: nat)
    requires k <= |maps|
  {
    forall j :: 0 <= j < k ==> maps[j].props.pathRules.Some? && Valid(maps[j].props)
  }

  /** validateURLPathMaps: stops at the first map that does not pass. */
  method ValidateUrlPathMaps(maps: seq<UrlPathMap>) returns (verdict: Verdict)
    ensures verdict.Accepts? <==> PassUpTo(maps, |maps|)
    ensures verdict.Crashes? <==> exists k :: 0 <= k < |maps| && PassUpTo(maps, k) && maps[k].props.pathRules.None?
    ensures verdict.Rejects? <==>
      exists k :: 0 <= k < |maps| && PassUpTo(maps, k) && maps[k].props.pathRules.Some? && !Valid(maps[k].props)
  {
    for k := 0 to |maps|
      invariant PassUpTo(maps, k)
    {
      var m := maps[k].props;
      if m.pathRules.None? { return Crashes; }
      if |m.pathRules.value| == 0 {
        var redirect, backend := m.redirect.Some?, Backed(m.pool, m.settings);
        if !redirect && !backend { return Rejects(NoDefaults); }
        if redirect && backend { return Rejects(EitherDefaults); }
      } else {
        var err := ValidatePathRules(m.pathRules.value);
        if err.Some? { return Rejects(err.value); }
      }
    }
    return Accepts;
  }

  /** The path maps of a greenfield build always pass the validator. */
  lemma BuildIsValid(ctx: Context, b: Built, k: nat)
    requires IsBuild(ctx, b) && k < |b.pathMaps|
    ensures b.pathMaps[k].props.pathRules.Some? && Valid(b.pathMaps[k].props)
    ensures forall pr :: pr in RulesIn(b.pathMaps[k].props) ==> OneTarget(pr.pool, pr.settings, pr.redirect)
  {
    BuildKnownFits(ctx, b);
    assert b.pathIds[k] in b.pathIds;
    FinalMapFine(ctx, EnvOf(b), KnownOf(b), b.maps, b.pathIds[k]);
    FineIsValid(KnownOf(b), b.maps[b.pathIds[k]]);
  }

  lemma FineIsValid(known: Known, m: Props)
    requires AllFine(known, RulesIn(m)) && RulesIn(m) != []
    ensures Valid(m) && forall pr :: pr in RulesIn(m) ==> OneTarget(pr.pool, pr.settings, pr.redirect)
  {
    forall pr | pr in RulesIn(m)
      ensures OneOf(pr.redirect, pr.pool, pr.settings) && OneTarget(pr.pool, pr.settings, pr.redirect)
    {
      assert PathRuleFine(known, pr);
    }
  }

  /** Every basic rule of a greenfield build has a redirect, or both pool and settings. */
  lemma BasicRulesHaveOneTarget(ctx: Context, b: Built, k: nat)
    requires IsBuild(ctx, b) && k < |b.rules| && b.rules[k].ruleType.Basic?
    ensures OneTarget(b.rules[k].pool, b.rules[k].settings, b.rules[k].redirect)
  {
    BuildKnownFits(ctx, b);
    BasicRuleTarget(ctx, b, k);
  }

  lemma BasicRuleTarget(ctx: Context, b: Built, k: nat)
    requires KnownFits(ctx, EnvOf(b), KnownOf(b)) && PathMapsPass(ctx, EnvOf(b), b.maps)
    requires RulesPass(b.maps, b.byId, b.ruleIds, b.rules, b.pathIds, b.pathMaps)
    requires k < |b.rules| && b.rules[k].ruleType.Basic?
    ensures OneTarget(b.rules[k].pool, b.rules[k].settings, b.rules[k].redirect)
  {
    assert b.ruleIds[k] in b.ruleIds;
    FinalMapFine(ctx, EnvOf(b), KnownOf(b), b.maps, b.ruleIds[k]);
  }

  // ---------------------------------------------------------------- redirects

  function HttpsTwin(id: ListenerId): ListenerId {
    id.(port := HTTPS_PORT)
  }

  /** If the map redirects at all, it belongs to an HTTP listener, and to its HTTPS twin it redirects. */
  ghost predicate RedirectsToTwin(env: Env, id: ListenerId, ref: Option<Id>) {
    ref.Some? ==> id.port == HTTP_PORT && ref.value == RedirectName(HttpsTwin(id)) && ref.value in env.redirects
  }

  ghost predicate MapRedirectsToTwin(env: Env, id: ListenerId, m: Props) {
    RedirectsToTwin(env, id, m.redirect) && forall pr :: pr in RulesIn(m) ==> RedirectsToTwin(env, id, pr.redirect)
  }

  lemma {:induction false} PathRulesToTwin(ctx: Context, env: Env, i: nat, r: nat, id: ListenerId,
                                           protocol: Protocol, n: nat)
    requires EnvFits(ctx, env) && HttpRule(ctx, i, r) && n <= NumPaths(ctx, i, r)
    requires protocol == HTTP ==> id.port == HTTP_PORT
    ensures forall pr :: pr in PathRulesUpTo(ctx, env, i, r, id, protocol, n) ==> RedirectsToTwin(env, id, pr.redirect)
  {
    if n > 0 {
      PathRulesToTwin(ctx, env, i, r, id, protocol, n - 1);
      var pr := PathRuleAt(ctx, env, i, r, id, protocol, n - 1);
      assert pr.Some? ==> RedirectsToTwin(env, id, pr.value.redirect);
    }
  }

  lemma MergeToTwin(env: Env, id: ListenerId, prior: Props, c: Props)
    requires MapRedirectsToTwin(env, id, prior) && MapRedirectsToTwin(env, id, c)
    ensures MapRedirectsToTwin(env, id, MergeInto(prior, c))
  {
  }

  lemma StepToTwin(ctx: Context, env: Env, s: Step, id: ListenerId, prior: Option<Props>)
    requires EnvFits(ctx, env) && (prior.Some? ==> MapRedirectsToTwin(env, id, prior.value))
    ensures StepAt(ctx, env, s, id, prior).Some? ==> MapRedirectsToTwin(env, id, StepAt(ctx, env, s, id, prior).value)
  {
    if StepServes(ctx, s, id) {
      ContributionToTwin(ctx, env, s, id);
      MergeToTwin(env, id, if prior.Some? then prior.value else FRESH, StepContribution(ctx, env, s, id));
    }
  }

  lemma {:induction false} MapAfterToTwin(ctx: Context, env: Env, steps: seq<Step>, id: ListenerId)
    requires EnvFits(ctx, env)
    ensures MapAfter(ctx, env, steps, id).Some? ==> MapRedirectsToTwin(env, id, MapAfter(ctx, env, steps, id).value)
  {
    if steps != [] {
      var n := |steps| - 1;
      MapAfterToTwin(ctx, env, steps[..n], id);
      StepToTwin(ctx, env, steps[n], id, MapAfter(ctx, env, steps[..n], id));
    }
  }

  lemma ContributionToTwin(ctx: Context, env: Env, s: Step, id: ListenerId)
    requires EnvFits(ctx, env) && StepServes(ctx, s, id)
    ensures MapRedirectsToTwin(env, id, StepContribution(ctx, env, s, id))
  {
    var ing := ctx.ingresses[s.i];
    ProcessRuleShape(ctx, ing, ing.rules[s.r]);
    var protocol := ProcessRule(ctx, ing, ing.rules[s.r])[id].protocol;
    PathRulesToTwin(ctx, env, s.i, s.r, id, protocol, NumPaths(ctx, s.i, s.r));
  }

  /** The redirect named after listener `t` exists only if `t` does, and it leads there. */
  lemma RedirectLeadsTo(ctx: Context, b: Built, t: ListenerId)
    requires Ready(ctx, b.configs) && RedirectsPass(b.configs, b.byId, b.targets, b.redirects)
    requires RedirectName(t) in RedirectIds(b.redirects)
    ensures t in b.byId && t in b.configs && b.configs[t].protocol == HTTPS
    ensures Redirect(RedirectName(t), b.byId[t].name) in b.redirects
  {
    var k :| 0 <= k < |b.redirects| && b.redirects[k].name == RedirectName(t);
    assert b.targets[k] in b.targets;
    assert Shape(ctx, b.targets[k], b.configs[b.targets[k]]);
  }

  lemma FinalMapToTwin(ctx: Context, env: Env, maps: map<ListenerId, Props>, id: ListenerId)
    requires PathMapsPass(ctx, env, maps) && id in maps
    ensures MapRedirectsToTwin(env, id, maps[id])
  {
    MapAfterToTwin(ctx, env, Steps(ctx), id);
  }

  /** `ref` is a redirect in the map, default or path rule. */
  ghost predicate Attached(m: Props, ref: Id) {
    m.redirect == Some(ref) || exists pr :: pr in RulesIn(m) && pr.redirect == Some(ref)
  }

  lemma AttachedLeadsToTwin(ctx: Context, b: Built, id: ListenerId, ref: Id)
    requires Ready(ctx, b.configs) && RedirectsPass(b.configs, b.byId, b.targets, b.redirects)
    requires id in b.maps && MapRedirectsToTwin(EnvOf(b), id, b.maps[id]) && Attached(b.maps[id], ref)
    ensures var t := HttpsTwin(id);
      && id.port == HTTP_PORT && t in b.byId && t in b.configs && b.configs[t].protocol == HTTPS
      && Redirect(ref, b.byId[t].name) in b.redirects
  {
    RedirectLeadsTo(ctx, b, HttpsTwin(id));
  }

  lemma NothingAttached(env: Env, id: ListenerId, m: Props, ref: Id)
    requires MapRedirectsToTwin(env, id, m) && id.port != HTTP_PORT
    ensures !Attached(m, ref)
  {
  }

  /** A redirect attached in a greenfield build is attached to an HTTP listener, leads to an
      existing HTTPS listener with the same host names and IP kind, and that listener's own map
      redirects nowhere: chains have length one. */
  lemma RedirectsLeadToHttps(ctx: Context, b: Built, id: ListenerId, ref: Id)
    requires IsBuild(ctx, b) && id in b.maps && Attached(b.maps[id], ref)
    ensures var t := HttpsTwin(id);
      && id.port == HTTP_PORT && t in b.byId && t in b.configs && b.configs[t].protocol == HTTPS
      && Redirect(ref, b.byId[t].name) in b.redirects
      && t in b.maps && forall other :: !Attached(b.maps[t], other)
  {
    var t := HttpsTwin(id);
    FinalMapToTwin(ctx, EnvOf(b), b.maps, id);
    AttachedLeadsToTwin(ctx, b, id, ref);
    MapsCoverConfigs(ctx, EnvOf(b), b.maps, t);
    FinalMapToTwin(ctx, EnvOf(b), b.maps, t);
    forall other ensures !Attached(b.maps[t], other) {
      NothingAttached(EnvOf(b), t, b.maps[t], other);
    }
  }
}
