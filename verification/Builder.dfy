/**
 The configuration builder: passes that remember their results, run in order
 (pkg/appgw/configbuilder.go, pkg/appgw/http_listeners.go).
 */
module Builder {
  import opened Sorting
  import opened Resources
  import opened RoutingTypes
  import opened IngressListeners
  import opened Backends
  import opened PathMaps
  import opened BuildSpec
  import opened BuilderPasses
  import opened BuilderRules
  import opened BuildValidation

  /** The part of the gateway a build replaces. */
  datatype GatewayConfig = GatewayConfig(
    listeners: seq<Listener>,
    ports: seq<FrontendPort>,
    redirects: seq<Redirect>,
    settings: seq<Setting>,
    pools: set<Id>,
    probes: set<Id>,
    certs: set<Id>,
    rules: seq<Rule>,
    pathMaps: seq<UrlPathMap>
  )

  function Emitted(b: Built): GatewayConfig {
    GatewayConfig(b.listeners, b.ports, b.redirects, b.settings, b.pools, b.probes, b.certs, b.rules, b.pathMaps)
  }

  /** What the caller of the build provides: ports keyed by number. */
  lemma ContextIsShaped(ctx: Context)
    requires PortsKeyed(ctx)
    ensures Shaped(ctx, Configs(ctx))
  {
    ConfigsAre(ctx);
  }

  /** How a build can end: a gateway, an error, or a nil dereference. */
  datatype BuildOutcome = Emits(gateway: GatewayConfig) | Fails | Panics

  class ConfigBuilder {
    const ctx: Context
    const configs: map<ListenerId, AzConfig>
    var memListeners: Option<seq<Listener>>
    var memPorts: Option<seq<FrontendPort>>
    var memRedirects: Option<seq<Redirect>>
    var memPairs: Option<map<BackendId, PortPair>>
    var memSettings: Option<seq<Setting>>
    ghost var ids: seq<ListenerId>
    ghost var targets: seq<ListenerId>

    ghost predicate ListenersOk()
      requires Shaped(ctx, configs)
      reads `memListeners, `memPorts, `ids
    {
      && (memListeners.Some? <==> memPorts.Some?)
      && (memListeners.Some? ==>
            && IpsReady(ctx, configs) && ListenersPass(ctx, configs, ids, memListeners.value, memPorts.value)
            && Sorted(memListeners.value, ListenerRank(ctx)) && Sorted(memPorts.value, PortRank(ctx)))
    }

    /** The listeners remembered, by the identifiers rebuilt from them. */
    ghost function ById(): map<ListenerId, Listener>
      requires memListeners.Some? && memPorts.Some?
      reads `memListeners, `memPorts
    {
      Group(ctx, PortsById(memPorts.value), memListeners.value)
    }

    ghost predicate RedirectsOk()
      reads `memListeners, `memPorts, `memRedirects, `targets
    {
      memRedirects.Some? ==>
        && memListeners.Some? && memPorts.Some? && RedirectsPass(configs, ById(), targets, memRedirects.value)
        && Sorted(memRedirects.value, RedirectRank(ctx))
    }

    ghost predicate BackendsOk()
      reads `memPairs, `memSettings
    {
      && (memPairs.Some? <==> memSettings.Some?)
      && (memPairs.Some? ==>
            && BackendsPass(ctx, memPairs.value)
            && SettingsPass(SettingsByBackend(ctx, memPairs.value), memSettings.value))
    }

    ghost predicate Valid()
      requires Shaped(ctx, configs)
      reads this
    {
      ListenersOk() && RedirectsOk() && BackendsOk()
    }

    constructor (ctx: Context, configs: map<ListenerId, AzConfig>)
      requires Shaped(ctx, configs)
      ensures this.ctx == ctx && this.configs == configs && Valid()
    {
      this.ctx, this.configs := ctx, configs;
      memListeners, memPorts, memRedirects, memPairs, memSettings := None, None, None, None, None;
      ids, targets := [], [];
    }

    /** getListeners: the first result is the result of every later call. None: a nil dereference. */
    method GetListeners() returns (r: Option<(seq<Listener>, seq<FrontendPort>)>)
      requires Shaped(ctx, configs) && ListenersOk()
      modifies `memListeners, `memPorts, `ids
      ensures ListenersOk() && (r.Some? <==> IpsReady(ctx, configs))
      ensures r.Some? ==> memListeners == Some(r.value.0) && memPorts == Some(r.value.1)
      ensures old(memListeners).Some? ==>
        memListeners == old(memListeners) && memPorts == old(memPorts) && ids == old(ids)
    {
      if memListeners.Some? && memPorts.Some? { return Some((memListeners.value, memPorts.value)); }
      ghost var made;
      made, r := ComputeListeners(ctx, configs);
      if r.Some? {
        memListeners, memPorts, ids := Some(r.value.0), Some(r.value.1), made;
      }
    }

    method GetGroups() returns (byId: Option<map<ListenerId, Listener>>)
      requires Shaped(ctx, configs) && ListenersOk()
      modifies `memListeners, `memPorts, `ids
      ensures ListenersOk() && (byId.Some? <==> IpsReady(ctx, configs))
      ensures byId.Some? ==> memListeners.Some? && memPorts.Some? && byId.value == ById()
      ensures old(memListeners).Some? ==>
        memListeners == old(memListeners) && memPorts == old(memPorts) && ids == old(ids)
    {
      var r := GetListeners();
      if r.None? { return None; }
      var groups := GroupListeners(ctx, r.value.0, r.value.1);
      byId := Some(groups);
    }

    /** getRedirectConfigurations: the first result is the result of every later call. */
    method GetRedirects() returns (redirects: Option<seq<Redirect>>)
      requires Shaped(ctx, configs) && ListenersOk() && RedirectsOk()
      modifies `memListeners, `memPorts, `ids, `memRedirects, `targets
      ensures ListenersOk() && RedirectsOk() && (redirects.Some? <==> IpsReady(ctx, configs))
      ensures redirects.Some? ==> memListeners.Some? && memRedirects == redirects
      ensures old(memListeners).Some? ==>
        memListeners == old(memListeners) && memPorts == old(memPorts) && ids == old(ids)
      ensures old(memRedirects).Some? ==> memRedirects == old(memRedirects) && targets == old(targets)
    {
      if memRedirects.Some? { return memRedirects; }
      var byId := GetGroups();
      if byId.None? { return None; }
      var made, found := ComputeRedirects(ctx, configs, byId.value);
      memRedirects, targets := Some(found), made;
      redirects := memRedirects;
    }

    /** getBackendsAndSettingsMap: once it succeeds, the result of every later call.
        `None`: some backend has more than one port pair. */
    method GetPairs() returns (pairs: Option<map<BackendId, PortPair>>)
      requires BackendsOk()
      modifies `memPairs, `memSettings
      ensures BackendsOk()
      ensures pairs.Some? ==> memPairs == pairs
      ensures old(memPairs).Some? ==> pairs == memPairs == old(memPairs) && memSettings == old(memSettings)
      ensures pairs.None? ==> SeveralPairs(ctx)
    {
      if memPairs.Some? && memSettings.Some? { return memPairs; }
      pairs := GetBackends(ctx);
      if pairs.None? { return; }
      var settings := GetSettings(SettingsByBackend(ctx, pairs.value));
      memPairs, memSettings := pairs, Some(settings);
    }

    /** Port pairs, settings, pools, probes and certificates. */
    method GetBack() returns (r: Option<(map<BackendId, PortPair>, seq<Setting>, set<Id>, set<Id>, set<Id>)>)
      requires BackendsOk()
      modifies `memPairs, `memSettings
      ensures BackendsOk()
      ensures r.None? ==> SeveralPairs(ctx)
      ensures r.Some? ==> BackOk(ctx, r.value.0, r.value.1, r.value.2, r.value.3, r.value.4)
    {
      var probes := GetProbes(ctx);
      var found := GetPairs();
      if found.None? { return None; }
      var pools := GetPools(ctx, found.value);
      var certs := GetCerts(ctx);
      r := Some((found.value, memSettings.value, pools, probes, certs));
    }

    /** Listeners, ports, redirects and the listeners by rebuilt identifier. */
    method GetFront() returns (r: Option<(seq<Listener>, seq<FrontendPort>, seq<Redirect>, map<ListenerId, Listener>)>)
      requires Shaped(ctx, configs) && ListenersOk() && RedirectsOk()
      modifies `memListeners, `memPorts, `ids, `memRedirects, `targets
      ensures r.Some? <==> IpsReady(ctx, configs)
      ensures r.Some? ==> FrontOk(ctx, configs, ids, r.value.0, r.value.1, targets, r.value.2, r.value.3)
    {
      var found := GetListeners();
      if found.None? { return None; }
      var redirects := GetRedirects();
      var byId := GetGroups();
      r := Some((found.value.0, found.value.1, redirects.value, byId.value));
    }

    /** Build: probes, settings, pools, listeners with redirects, rules. */
    method Build() returns (outcome: BuildOutcome, ghost b: Built)
      requires Shaped(ctx, configs) && Valid()
      modifies this
      ensures outcome.Emits? ==> b.configs == configs && Passes(ctx, b) && outcome.gateway == Emitted(b)
      ensures outcome.Fails? ==> SeveralPairs(ctx)
      ensures outcome.Panics? ==> !IpsReady(ctx, configs)
      ensures !IpsReady(ctx, configs) ==> !outcome.Emits?
    {
      b := Built(configs, [], [], [], map[], [], [], map[], [], {}, {}, {}, map[], [], [], [], []);
      var back := GetBack();
      if back.None? { return Fails, b; }
      var front := GetFront();
      if front.None? { return Panics, b; }
      var (pairs, settings, pools, probes, certs) := back.value;
      var (listeners, ports, redirects, byId) := front.value;
      var view, ruleIds, rules, pathIds, pathMaps := GetRules(ctx, Env(pairs, RedirectIds(redirects)), byId);
      outcome := Emits(GatewayConfig(listeners, ports, redirects, settings, pools, probes, certs, rules, pathMaps));
      b := Built(configs, ids, listeners, ports, byId, targets, redirects, pairs, settings, pools, probes, certs, view,
                 ruleIds, rules, pathIds, pathMaps);
      Assembled(ctx, b);
    }
  }

  /** Some backend resolves to more than one port pair. */
  ghost predicate SeveralPairs(ctx: Context) {
    exists b, ps :: Exists(ctx, b) && Resolves(ctx, b, ps) && |ps| > 1
  }

  ghost predicate FrontOk(ctx: Context, configs: map<ListenerId, AzConfig>, ids: seq<ListenerId>,
                          listeners: seq<Listener>,
                          ports: seq<FrontendPort>, targets: seq<ListenerId>, redirects: seq<Redirect>,
                              byId: map<ListenerId, Listener>)
    requires Shaped(ctx, configs)
  {
    && IpsReady(ctx, configs) && ListenersPass(ctx, configs, ids, listeners, ports)
    && Sorted(listeners, ListenerRank(ctx)) && Sorted(ports, PortRank(ctx)) && Sorted(redirects, RedirectRank(ctx))
    && byId == Group(ctx, PortsById(ports), listeners) && RedirectsPass(configs, byId, targets, redirects)
  }

  ghost predicate BackOk(ctx: Context, pairs: map<BackendId, PortPair>, settings: seq<Setting>, pools: set<Id>,
                         probes: set<Id>, certs: set<Id>) {
    && BackendsPass(ctx, pairs) && SettingsPass(SettingsByBackend(ctx, pairs), settings) && PoolsPass(ctx, pairs, pools)
    && ProbesPass(ctx, probes) && CertsPass(ctx, certs)
  }

  lemma Assembled(ctx: Context, b: Built)
    requires Shaped(ctx, b.configs)
    requires FrontOk(ctx, b.configs, b.ids, b.listeners, b.ports, b.targets, b.redirects, b.byId)
    requires BackOk(ctx, b.pairs, b.settings, b.pools, b.probes, b.certs)
    requires PathMapsPass(ctx, EnvOf(b), b.maps) && RulesPass(b.maps, b.byId, b.ruleIds, b.rules, b.pathIds, b.pathMaps)
    requires Sorted(b.rules, RuleRank(ctx)) && Sorted(b.pathMaps, PathMapRank(ctx))
    ensures Passes(ctx, b)
  {
  }

  /** Path maps, and the rules made from them. */
  method GetRules(ctx: Context, env: Env, byId: map<ListenerId, Listener>)
    returns (ghost view: map<ListenerId, Props>, ghost ruleIds: seq<ListenerId>, rules: seq<Rule>,
             ghost pathIds: seq<ListenerId>, pathMaps: seq<UrlPathMap>)
    requires EnvFits(ctx, env)
    ensures PathMapsPass(ctx, env, view) && RulesPass(view, byId, ruleIds, rules, pathIds, pathMaps)
    ensures Sorted(rules, RuleRank(ctx)) && Sorted(pathMaps, PathMapRank(ctx))
  {
    var maps;
    maps, view := GetPathMaps(ctx, env);
    ruleIds, rules, pathIds, pathMaps := ComputeRules(ctx, maps, byId, view);
  }

  /** A whole build: listener configurations first, then everything made from them. */
  method RunBuild(ctx: Context) returns (outcome: BuildOutcome, ghost b: Built)
    requires PortsKeyed(ctx)
    ensures outcome.Emits? ==> IsBuild(ctx, b) && outcome.gateway == Emitted(b)
    ensures outcome.Fails? ==> SeveralPairs(ctx)
    ensures outcome.Panics? ==> !IpsReady(ctx, Configs(ctx))
    ensures !IpsReady(ctx, Configs(ctx)) ==> !outcome.Emits?
  {
    ContextIsShaped(ctx);
    var configs := GetListenerConfigs(ctx);
    var builder := new ConfigBuilder(ctx, configs);
    outcome, b := builder.Build();
  }

  /** Build followed by the post-build validation, which always accepts; what is emitted is what some
      build allowed by the specification emits. */
  method BuildAndValidate(ctx: Context) returns (outcome: BuildOutcome, verdict: Verdict)
    requires PortsKeyed(ctx)
    ensures verdict.Accepts?
    ensures outcome.Emits? ==> exists b :: IsBuild(ctx, b) && outcome.gateway == Emitted(b)
  {
    ghost var b;
    outcome, b := RunBuild(ctx);
    if !outcome.Emits? { return outcome, Accepts; }
    forall k | 0 <= k < |b.pathMaps| ensures b.pathMaps[k].props.pathRules.Some? && Valid(b.pathMaps[k].props) {
      BuildIsValid(ctx, b, k);
    }
    verdict := ValidateUrlPathMaps(outcome.gateway.pathMaps);
  }
}
