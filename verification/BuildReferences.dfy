/**
 References of a greenfield build resolve, but for the default listener's default pool; when that
 one does is the subject of BuildDangling
 (pkg/appgw/requestroutingrules.go, pkg/appgw/redirects.go).
 */
module BuildReferences {
  import opened Iteration
  import opened Resources
  import opened RoutingTypes
  import opened IngressListeners
  import opened Backends
  import opened PathMaps
  import opened BuildSpec

  /** Names of the pools, settings and redirects that exist. */
  datatype Known = Known(pools: set<Id>, settings: set<Id>, redirects: set<Id>)

  ghost predicate In(ref: Option<Id>, known: set<Id>) {
    ref.Some? ==> ref.value in known
  }

  /** A redirect, or both pool and settings; never both alternatives and never neither. */
  predicate OneTarget(pool: Option<Id>, settings: Option<Id>, redirect: Option<Id>) {
    if redirect.Some? then pool.None? && settings.None? else pool.Some? && settings.Some?
  }

  ghost predicate PathRuleFine(known: Known, pr: PRule) {
    && OneTarget(pr.pool, pr.settings, pr.redirect)
    && In(pr.pool, known.pools) && In(pr.settings, known.settings) && In(pr.redirect, known.redirects)
  }

  ghost predicate AllFine(known: Known, rules: seq<PRule>) {
    forall pr :: pr in rules ==> PathRuleFine(known, pr)
  }

  /** A path map all of whose references but the default pool resolve. */
  ghost predicate MapFine(known: Known, m: Props) {
    && In(m.settings, known.settings) && In(m.redirect, known.redirects)
    && (m.redirect.None? ==> m.pool.Some? && m.settings.Some?)
    && AllFine(known, RulesIn(m))
  }

  ghost predicate KnownFits(ctx: Context, env: Env, known: Known) {
    && EnvFits(ctx, env)
    && known.redirects == env.redirects
    && DefaultPoolName in known.pools && DefaultSettingsName in known.settings
    && (forall b :: b in env.pairs ==>
          PoolFor(ctx, b, env.pairs[b]) in known.pools && SettingFor(ctx, b, env.pairs[b]).name in known.settings)
  }

  lemma {:induction false} PathRulesFine(ctx: Context, env: Env, known: Known, i: nat, r: nat, id: ListenerId,
                                         protocol: Protocol, n: nat)
    requires KnownFits(ctx, env, known) && HttpRule(ctx, i, r) && n <= NumPaths(ctx, i, r)
    ensures AllFine(known, PathRulesUpTo(ctx, env, i, r, id, protocol, n))
  {
    if n > 0 {
      PathRulesFine(ctx, env, known, i, r, id, protocol, n - 1);
      var pr := PathRuleAt(ctx, env, i, r, id, protocol, n - 1);
      assert pr.Some? ==> PathRuleFine(known, pr.value);
    }
  }

  lemma ContributionFine(ctx: Context, env: Env, known: Known, i: nat, r: nat, id: ListenerId, protocol: Protocol)
    requires KnownFits(ctx, env, known) && HttpRule(ctx, i, r)
    ensures var c := Contribution(ctx, env, i, r, id, protocol); MapFine(known, c) && In(c.pool, known.pools)
  {
    PathRulesFine(ctx, env, known, i, r, id, protocol, NumPaths(ctx, i, r));
  }

  lemma MergeFine(known: Known, m: Props, c: Props)
    requires MapFine(known, m) && MapFine(known, c) && In(c.pool, known.pools)
    ensures MapFine(known, MergeInto(m, c))
    ensures In(m.pool, known.pools) ==> In(MergeInto(m, c).pool, known.pools)
  {
  }

  /** Only the default pool of the default listener's map can fail to resolve. */
  lemma {:induction false} MapAfterFine(ctx: Context, env: Env, known: Known, steps: seq<Step>, id: ListenerId)
    requires KnownFits(ctx, env, known)
    ensures var m := MapAfter(ctx, env, steps, id);
      m.Some? ==> MapFine(known, m.value) && (id != DefaultListener() ==> In(m.value.pool, known.pools))
  {
    if steps != [] {
      var n := |steps| - 1;
      var s, before := steps[n], MapAfter(ctx, env, steps[..n], id);
      MapAfterFine(ctx, env, known, steps[..n], id);
      if StepServes(ctx, s, id) {
        var c := StepContribution(ctx, env, s, id);
        ContributionFine(ctx, env, known, s.i, s.r, id, StepProtocol(ctx, s, id));
        MergeFine(known, if before.Some? then before.value else FRESH, c);
      }
    }
  }

  lemma FinalMapFine(ctx: Context, env: Env, known: Known, maps: map<ListenerId, Props>, id: ListenerId)
    requires KnownFits(ctx, env, known) && PathMapsPass(ctx, env, maps) && id in maps
    ensures MapFine(known, maps[id])
    ensures id != DefaultListener() ==> In(maps[id].pool, known.pools)
  {
    MapAfterFine(ctx, env, known, Steps(ctx), id);
  }

  // ---------------------------------------------------------------- the whole result

  function SettingNames(settings: seq<Setting>): set<Id> {
    set k | 0 <= k < |settings| :: settings[k].name
  }

  function ListenerNames(ls: seq<Listener>): set<Id> {
    set k | 0 <= k < |ls| :: ls[k].name
  }

  function PathMapNames(ms: seq<UrlPathMap>): set<Id> {
    set k | 0 <= k < |ms| :: ms[k].name
  }

  function PortIds(ports: seq<FrontendPort>): set<Id> {
    set k | 0 <= k < |ports| :: ports[k].id
  }

  function KnownOf(b: Built): Known {
    Known(b.pools, SettingNames(b.settings), RedirectIds(b.redirects))
  }

  ghost predicate RuleResolves(b: Built, r: Rule) {
    && r.listener.Some? && r.listener.value in ListenerNames(b.listeners)
    && In(r.pathMap, PathMapNames(b.pathMaps))
    && In(r.pool, b.pools) && In(r.settings, SettingNames(b.settings)) && In(r.redirect, RedirectIds(b.redirects))
  }

  ghost predicate PathMapResolves(b: Built, m: Props) {
    && In(m.pool, b.pools) && In(m.settings, SettingNames(b.settings)) && In(m.redirect, RedirectIds(b.redirects))
    && AllFine(KnownOf(b), RulesIn(m))
  }

  ghost predicate ListenerResolves(b: Built, l: Listener) {
    l.port in PortIds(b.ports) && In(l.cert, b.certs)
  }

  /** Every reference in the result leads to something in the result. */
  ghost predicate RefsResolve(b: Built) {
    && (forall k :: 0 <= k < |b.rules| ==> RuleResolves(b, b.rules[k]))
    && (forall k :: 0 <= k < |b.pathMaps| ==> PathMapResolves(b, b.pathMaps[k].props))
    && (forall k :: 0 <= k < |b.settings| ==> b.settings[k].probe in b.probes)
    && (forall k :: 0 <= k < |b.redirects| ==> b.redirects[k].target in ListenerNames(b.listeners))
    && (forall k :: 0 <= k < |b.listeners| ==> ListenerResolves(b, b.listeners[k]))
  }

  /** The one reference nothing vouches for: the default pool of the default listener's map, when
      that map is in use and its default is not a redirect. */
  ghost predicate DefaultPoolResolves(b: Built) {
    var id := DefaultListener();
    id in b.maps && id in b.byId && !(RulesIn(b.maps[id]) == [] && b.maps[id].redirect.Some?) ==>
      In(b.maps[id].pool, b.pools)
  }

  lemma BuildKnownFits(ctx: Context, b: Built)
    requires BackendsPass(ctx, b.pairs)
    requires SettingsPass(SettingsByBackend(ctx, b.pairs), b.settings) && PoolsPass(ctx, b.pairs, b.pools)
    ensures KnownFits(ctx, EnvOf(b), KnownOf(b))
  {
    var names := SettingNames(b.settings);
    forall s | s in b.settings ensures s.name in names {
      var k :| 0 <= k < |b.settings| && b.settings[k] == s;
    }
    var own := SettingsByBackend(ctx, b.pairs);
    forall x | x in b.pairs ensures SettingFor(ctx, x, b.pairs[x]).name in names {
      assert own[x] == SettingFor(ctx, x, b.pairs[x]);
    }
  }

  lemma GroupedAreListeners(ctx: Context, b: Built, id: ListenerId)
    requires b.byId == Group(ctx, PortsById(b.ports), b.listeners) && id in b.byId
    ensures b.byId[id].name in ListenerNames(b.listeners)
  {
    ZipKeys(Recovered(ctx, PortsById(b.ports), b.listeners), b.listeners, id);
  }

  lemma RuleReferences(ctx: Context, b: Built, k: nat)
    requires KnownFits(ctx, EnvOf(b), KnownOf(b)) && PathMapsPass(ctx, EnvOf(b), b.maps)
    requires b.byId == Group(ctx, PortsById(b.ports), b.listeners)
    requires RulesPass(b.maps, b.byId, b.ruleIds, b.rules, b.pathIds, b.pathMaps) && k < |b.rules|
    ensures RuleResolves(b, b.rules[k]) <==>
      (b.ruleIds[k] == DefaultListener() && b.rules[k].ruleType.Basic? && b.maps[b.ruleIds[k]].redirect.None?
       ==> In(b.maps[b.ruleIds[k]].pool, b.pools))
    ensures b.rules[k].ruleType.Basic? ==> OneTarget(b.rules[k].pool, b.rules[k].settings, b.rules[k].redirect)
  {
    var id := b.ruleIds[k];
    assert id in b.ruleIds;
    FinalMapFine(ctx, EnvOf(b), KnownOf(b), b.maps, id);
    GroupedAreListeners(ctx, b, id);
    KeptPathMap(b, id);
  }

  lemma KeptPathMap(b: Built, id: ListenerId)
    requires RulesPass(b.maps, b.byId, b.ruleIds, b.rules, b.pathIds, b.pathMaps) && id in b.maps && id in b.byId
    ensures RulesIn(b.maps[id]) != [] ==> PathMapName(id) in PathMapNames(b.pathMaps)
  {
    if RulesIn(b.maps[id]) != [] {
      assert id in b.pathIds;
      var j :| 0 <= j < |b.pathIds| && b.pathIds[j] == id;
      assert b.pathMaps[j].name == PathMapName(id);
    }
  }

  lemma PathMapReferences(ctx: Context, b: Built, k: nat)
    requires KnownFits(ctx, EnvOf(b), KnownOf(b)) && PathMapsPass(ctx, EnvOf(b), b.maps)
    requires RulesPass(b.maps, b.byId, b.ruleIds, b.rules, b.pathIds, b.pathMaps) && k < |b.pathMaps|
    ensures PathMapResolves(b, b.pathMaps[k].props) <==>
      (b.pathIds[k] == DefaultListener() ==> In(b.maps[b.pathIds[k]].pool, b.pools))
  {
    assert b.pathIds[k] in b.pathIds;
    FinalMapFine(ctx, EnvOf(b), KnownOf(b), b.maps, b.pathIds[k]);
  }

  lemma SettingReferences(ctx: Context, b: Built, k: nat)
    requires BackendsPass(ctx, b.pairs) && ProbesPass(ctx, b.probes)
    requires SettingsPass(SettingsByBackend(ctx, b.pairs), b.settings) && k < |b.settings|
    ensures b.settings[k].probe in b.probes
  {
    assert b.settings[k] in b.settings;
    var own := SettingsByBackend(ctx, b.pairs);
    if b.settings[k] != DEFAULT_SETTING {
      var x :| x in own && b.settings[k] == own[x];
      assert b.settings[k].probe == ProbeFor(ctx, x);
    }
  }

  lemma RedirectReferences(ctx: Context, b: Built, k: nat)
    requires b.byId == Group(ctx, PortsById(b.ports), b.listeners)
    requires RedirectsPass(b.configs, b.byId, b.targets, b.redirects) && k < |b.redirects|
    ensures b.redirects[k].target in ListenerNames(b.listeners)
  {
    assert b.targets[k] in b.targets;
    GroupedAreListeners(ctx, b, b.targets[k]);
  }

  lemma ListenerPortReference(ctx: Context, b: Built, k: nat)
    requires Ready(ctx, b.configs) && ListenersPass(ctx, b.configs, b.ids, b.listeners, b.ports) && k < |b.listeners|
    ensures b.listeners[k].port in PortIds(b.ports)
  {
    var p := PortFor(ctx, b.ids[k]);
    assert KnownPort(ctx, b.ids, p) && UsesPort(ctx, b.ids, p.id);
    var j :| 0 <= j < |b.ports| && b.ports[j] == p;
  }

  lemma CertReference(ctx: Context, certs: set<Id>, id: ListenerId, c: AzConfig)
    requires CertsPass(ctx, certs) && Shape(ctx, id, c) && c.secret.Some?
    ensures CertName(SecretFullName(c.secret.value)) in certs
  {
    var ing :| ing in ctx.ingresses && c.secret.value in SecretsWithCert(ctx, ing);
    var i :| 0 <= i < |ctx.ingresses| && ctx.ingresses[i] == ing;
  }

  lemma ListenerReferences(ctx: Context, b: Built, k: nat)
    requires Ready(ctx, b.configs) && ListenersPass(ctx, b.configs, b.ids, b.listeners, b.ports)
    requires CertsPass(ctx, b.certs) && k < |b.listeners|
    ensures ListenerResolves(b, b.listeners[k])
  {
    ListenerPortReference(ctx, b, k);
    var c := b.configs[b.ids[k]];
    if c.protocol == HTTPS {
      CertReference(ctx, b.certs, b.ids[k], c);
    }
  }

  /** Every reference of a greenfield build resolves, except that the default listener's default
      pool may not: everything resolves exactly when that one does. */
  lemma RefsResolveIff(ctx: Context, b: Built)
    requires IsBuild(ctx, b)
    ensures RefsResolve(b) <==> DefaultPoolResolves(b)
  {
    BuildKnownFits(ctx, b);
    SettingsResolve(ctx, b);
    RedirectsResolve(ctx, b);
    ListenersResolve(ctx, b);
    RoutesResolveIff(ctx, b);
  }

  lemma SettingsResolve(ctx: Context, b: Built)
    requires BackendsPass(ctx, b.pairs) && ProbesPass(ctx, b.probes)
    requires SettingsPass(SettingsByBackend(ctx, b.pairs), b.settings)
    ensures forall k :: 0 <= k < |b.settings| ==> b.settings[k].probe in b.probes
  {
    forall k | 0 <= k < |b.settings| ensures b.settings[k].probe in b.probes { SettingReferences(ctx, b, k); }
  }

  lemma RedirectsResolve(ctx: Context, b: Built)
    requires b.byId == Group(ctx, PortsById(b.ports), b.listeners)
    requires RedirectsPass(b.configs, b.byId, b.targets, b.redirects)
    ensures forall k :: 0 <= k < |b.redirects| ==> b.redirects[k].target in ListenerNames(b.listeners)
  {
    forall k | 0 <= k < |b.redirects| ensures b.redirects[k].target in ListenerNames(b.listeners) {
      RedirectReferences(ctx, b, k);
    }
  }

  lemma ListenersResolve(ctx: Context, b: Built)
    requires Ready(ctx, b.configs) && ListenersPass(ctx, b.configs, b.ids, b.listeners, b.ports)
    requires CertsPass(ctx, b.certs)
    ensures forall k :: 0 <= k < |b.listeners| ==> ListenerResolves(b, b.listeners[k])
  {
    forall k | 0 <= k < |b.listeners| ensures ListenerResolves(b, b.listeners[k]) { ListenerReferences(ctx, b, k); }
  }

  lemma RoutesResolveIff(ctx: Context, b: Built)
    requires KnownFits(ctx, EnvOf(b), KnownOf(b)) && PathMapsPass(ctx, EnvOf(b), b.maps)
    requires b.byId == Group(ctx, PortsById(b.ports), b.listeners)
    requires RulesPass(b.maps, b.byId, b.ruleIds, b.rules, b.pathIds, b.pathMaps)
    ensures (forall k :: 0 <= k < |b.rules| ==> RuleResolves(b, b.rules[k]))
            && (forall k :: 0 <= k < |b.pathMaps| ==> PathMapResolves(b, b.pathMaps[k].props))
            <==> DefaultPoolResolves(b)
  {
    var id := DefaultListener();
    forall k | 0 <= k < |b.rules| ensures
      RuleResolves(b, b.rules[k]) <==>
        (b.ruleIds[k] == id && b.rules[k].ruleType.Basic? && b.maps[b.ruleIds[k]].redirect.None? ==>
          In(b.maps[b.ruleIds[k]].pool, b.pools))
    {
      RuleReferences(ctx, b, k);
    }
    forall k | 0 <= k < |b.pathMaps| ensures
      PathMapResolves(b, b.pathMaps[k].props) <==> (b.pathIds[k] == id ==> In(b.maps[b.pathIds[k]].pool, b.pools))
    {
      PathMapReferences(ctx, b, k);
    }
    if id in b.maps && id in b.byId {
      assert id in b.ruleIds;
      var k :| 0 <= k < |b.ruleIds| && b.ruleIds[k] == id;
      assert b.rules[k] == RuleFor(id, b.maps[id], b.byId[id]);
      if RulesIn(b.maps[id]) != [] {
        assert id in b.pathIds;
        var j :| 0 <= j < |b.pathIds| && b.pathIds[j] == id;
        assert b.pathMaps[j].props == b.maps[id];
      }
    }
  }

  // ---------------------------------------------------------------- ingresses without rules

  /** Ingresses without rules have endpoints behind their default backend. */
  ghost predicate BareBackendsHaveEndpoints(ctx: Context) {
    forall i, pair ::
      (0 <= i < |ctx.ingresses| && |ctx.ingresses[i].rules| == 0 && Exists(ctx, DefaultOf(i))
        && Resolves(ctx, DefaultOf(i), {pair}))
      ==> HasEndpoints(ctx, DefaultOf(i), pair)
  }

  lemma {:induction false} DefaultPoolAfter(ctx: Context, env: Env, known: Known, steps: seq<Step>)
    requires KnownFits(ctx, env, known)
    requires forall s :: s in steps && Overwrites(ctx, env, s) ==>
      OwnPoolName(ctx, DefaultOf(s.i), env.pairs[DefaultOf(s.i)]) in known.pools
    ensures var m := MapAfter(ctx, env, steps, DefaultListener()); m.Some? ==>
      MapFine(known, m.value) && In(m.value.pool, known.pools)
  {
    if steps != [] {
      var n := |steps| - 1;
      var s, id := steps[n], DefaultListener();
      var before := MapAfter(ctx, env, steps[..n], id);
      DefaultPoolAfter(ctx, env, known, steps[..n]);
      if StepServes(ctx, s, id) {
        ContributionFine(ctx, env, known, s.i, s.r, id, StepProtocol(ctx, s, id));
        MergeFine(known, if before.Some? then before.value else FRESH, StepContribution(ctx, env, s, id));
      }
    }
  }

  lemma OverwritingPoolsExist(ctx: Context, env: Env, pools: set<Id>, s: Step)
    requires BackendsPass(ctx, env.pairs) && PoolsPass(ctx, env.pairs, pools) && BareBackendsHaveEndpoints(ctx)
    requires s in Steps(ctx) && Overwrites(ctx, env, s)
    ensures OwnPoolName(ctx, DefaultOf(s.i), env.pairs[DefaultOf(s.i)]) in pools
  {
    StepsAre(ctx, |ctx.ingresses|, s);
    assert Resolves(ctx, DefaultOf(s.i), {env.pairs[DefaultOf(s.i)]});
    assert PoolFor(ctx, DefaultOf(s.i), env.pairs[DefaultOf(s.i)]) in pools;
  }

  lemma DefaultPoolExists(ctx: Context, b: Built)
    requires KnownFits(ctx, EnvOf(b), KnownOf(b)) && PathMapsPass(ctx, EnvOf(b), b.maps)
    requires BackendsPass(ctx, b.pairs) && PoolsPass(ctx, b.pairs, b.pools) && BareBackendsHaveEndpoints(ctx)
    ensures DefaultPoolResolves(b)
  {
    forall s | s in Steps(ctx) && Overwrites(ctx, EnvOf(b), s)
      ensures OwnPoolName(ctx, DefaultOf(s.i), EnvOf(b).pairs[DefaultOf(s.i)]) in b.pools
    {
      OverwritingPoolsExist(ctx, EnvOf(b), b.pools, s);
    }
    DefaultPoolAfter(ctx, EnvOf(b), KnownOf(b), Steps(ctx));
  }

  /** Every reference resolves when every ingress has rules, or at least endpoints behind its default backend. */
  lemma RefsResolveWithEndpoints(ctx: Context, b: Built)
    requires IsBuild(ctx, b) && BareBackendsHaveEndpoints(ctx)
    ensures RefsResolve(b)
  {
    BuildKnownFits(ctx, b);
    DefaultPoolExists(ctx, b);
    RefsResolveIff(ctx, b);
  }
}
