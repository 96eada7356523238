/**
 Backends: which ones the ingresses name, how their ports resolve, and the settings,
 pools and probes made for them (pkg/appgw/ingress_rules.go,
 pkg/appgw/backendhttpsettings.go, pkg/appgw/backendaddresspools.go,
 pkg/appgw/health_probes.go, resolvePortName of pkg/appgw/configbuilder.go).
 */
module Backends {
  import opened Iteration
  import opened Resources
  import opened RoutingTypes

  // ---------------------------------------------------------------- backend identifiers

  predicate HttpRule(ctx: Context, i: int, r: int) {
    && 0 <= i < |ctx.ingresses| && 0 <= r < |ctx.ingresses[i].rules|
    && ctx.ingresses[i].rules[r].http.Some?
  }

  predicate Exists(ctx: Context, b: BackendId) {
    match b
    case DefaultOf(i) => i < |ctx.ingresses| && ctx.ingresses[i].backend.Some?
    case PathOf(i, r, p) => HttpRule(ctx, i, r) && p < |ctx.ingresses[i].rules[r].http.value|
  }

  function BackendOf(ctx: Context, b: BackendId): Backend
    requires Exists(ctx, b)
  {
    match b
    case DefaultOf(i) => ctx.ingresses[i].backend.value
    case PathOf(i, r, p) => ctx.ingresses[i].rules[r].http.value[p].backend
  }

  function IngressOf(ctx: Context, b: BackendId): Ingress
    requires Exists(ctx, b)
  {
    ctx.ingresses[b.ingress]
  }

  ghost predicate AllBackends(ctx: Context, ids: set<BackendId>) {
    forall b :: b in ids <==> Exists(ctx, b)
  }

  /** newBackendIdsFiltered: every backend, existing service or not. */
  method NewBackendIds(ctx: Context) returns (ids: set<BackendId>)
    ensures AllBackends(ctx, ids)
  {
    ids := {};
    for i := 0 to |ctx.ingresses|
      invariant forall b :: b in ids <==> Exists(ctx, b) && b.ingress < i
    {
      var ing := ctx.ingresses[i];
      if ing.backend.Some? {
        ids := ids + {DefaultOf(i)};
      }
      for r := 0 to |ing.rules|
        invariant forall b :: b in ids <==>
          Exists(ctx, b) && (b.ingress < i || (b.ingress == i && (b.PathOf? ==> b.rule < r)))
      {
        if ing.rules[r].http.None? { continue; }
        var paths := ing.rules[r].http.value;
        for p := 0 to |paths|
          invariant forall b :: b in ids <==>
            Exists(ctx, b) && (b.ingress < i || (b.ingress == i && (b.PathOf? ==>
              b.rule < r || (b.rule == r && b.path < p))))
        {
          ids := ids + {PathOf(i, r, p)};
        }
      }
    }
  }

  // ---------------------------------------------------------------- port resolution

  function ServiceKey(ctx: Context, b: BackendId): string
    requires Exists(ctx, b)
  {
    IngressOf(ctx, b).ns + "/" + BackendOf(ctx, b).service
  }

  function ServiceFullName(ctx: Context, b: BackendId): string
    requires Exists(ctx, b)
  {
    IngressOf(ctx, b).ns + "-" + BackendOf(ctx, b).service
  }

  /** A TCP port whose number, name or target is written so. */
  ghost predicate Matches(sp: ServicePort, text: string) {
    sp.tcp && (sp.portText == text || sp.name == text || sp.targetText == text)
  }

  ghost predicate FirstMatch(ports: seq<ServicePort>, text: string, k: int) {
    0 <= k < |ports| && Matches(ports[k], text) && forall j :: 0 <= j < k ==> !Matches(ports[j], text)
  }

  /** Some endpoint of the service has a port with this name and number. */
  ghost predicate EndpointNamed(ctx: Context, key: string, name: string, number: int) {
    && key in ctx.endpoints
    && exists i, j :: 0 <= i < |ctx.endpoints[key]| && 0 <= j < |ctx.endpoints[key][i]|
                      && ctx.endpoints[key][i][j].name == name && ctx.endpoints[key][i][j].port == number
  }

  /** The service port leads to this backend port: its own number when no target is written, the target
      when that is a number, and otherwise whatever endpoint ports have the service port's name. */
  ghost predicate LeadsToPort(ctx: Context, key: string, sp: ServicePort, number: int) {
    if sp.targetText == "" then number == sp.port
    else if sp.target.Some? then number == sp.target.value
    else EndpointNamed(ctx, key, sp.name, number)
  }

  ghost predicate PairsAre(ctx: Context, key: string, sp: ServicePort, pairs: set<PortPair>) {
    forall pair :: pair in pairs <==> pair.servicePort == sp.port && LeadsToPort(ctx, key, sp, pair.backendPort)
  }

  /** The port pairs of a backend as written in namespace `ns`: those of the first matching service port;
      a missing service counts as resolved to the port number asked for. */
  ghost predicate ResolvesTo(ctx: Context, ns: string, backend: Backend, pairs: set<PortPair>) {
    var key := ns + "/" + backend.service;
    if key !in ctx.services then
      pairs == {PortPair(backend.portNumber, backend.portNumber)}
    else if exists k :: FirstMatch(ctx.services[key], backend.portText, k) then
      exists k :: FirstMatch(ctx.services[key], backend.portText, k) && PairsAre(ctx, key, ctx.services[key][k], pairs)
    else
      pairs == {}
  }

  ghost predicate Resolves(ctx: Context, b: BackendId, pairs: set<PortPair>)
    requires Exists(ctx, b)
  {
    ResolvesTo(ctx, IngressOf(ctx, b).ns, BackendOf(ctx, b), pairs)
  }

  lemma ResolvesOnce(ctx: Context, b: BackendId, p: set<PortPair>, q: set<PortPair>)
    requires Exists(ctx, b) && Resolves(ctx, b, p) && Resolves(ctx, b, q)
    ensures p == q
  {
    var key, backend := ServiceKey(ctx, b), BackendOf(ctx, b);
    if key in ctx.services && exists k :: FirstMatch(ctx.services[key], backend.portText, k) {
      var k :| FirstMatch(ctx.services[key], backend.portText, k) && PairsAre(ctx, key, ctx.services[key][k], p);
      var l :| FirstMatch(ctx.services[key], backend.portText, l) && PairsAre(ctx, key, ctx.services[key][l], q);
      assert k == l;
    }
  }

  /** resolvePortName: the endpoint ports with this name. */
  method ResolvePortName(ctx: Context, key: string, name: string) returns (ports: set<int>)
    ensures forall number :: number in ports <==> EndpointNamed(ctx, key, name, number)
  {
    ports := {};
    if key !in ctx.endpoints { return; }
    var subsets: seq<seq<EndpointPort>> := ctx.endpoints[key];
    for i := 0 to |subsets|
      invariant forall n :: n in ports <==>
        exists x, y :: 0 <= x < i && 0 <= y < |subsets[x]| && subsets[x][y].name == name && subsets[x][y].port == n
    {
      var own := PortsIn(subsets[i], name);
      ports := ports + own;
    }
  }

  method PortsIn(subset: seq<EndpointPort>, name: string) returns (ports: set<int>)
    ensures forall n :: n in ports <==> exists y :: 0 <= y < |subset| && subset[y].name == name && subset[y].port == n
  {
    ports := {};
    for j := 0 to |subset|
      invariant forall n :: n in ports <==> exists y :: 0 <= y < j && subset[y].name == name && subset[y].port == n
    {
      if subset[j].name == name {
        ports := ports + {subset[j].port};
      }
    }
  }

  /** The pairs of a matching service port. */
  method PairsOf(ctx: Context, key: string, sp: ServicePort) returns (pairs: set<PortPair>)
    ensures PairsAre(ctx, key, sp, pairs)
  {
    if sp.targetText == "" {
      return {PortPair(sp.port, sp.port)};
    }
    if sp.target.Some? {
      return {PortPair(sp.port, sp.target.value)};
    }
    var targets := ResolvePortName(ctx, key, sp.name);
    return set t | t in targets :: PortPair(sp.port, t);
  }

  method ResolvePorts(ctx: Context, b: BackendId) returns (pairs: set<PortPair>)
    requires Exists(ctx, b)
    ensures ResolvesTo(ctx, ctx.ingresses[b.ingress].ns, BackendOf(ctx, b), pairs)
  {
    var key, backend := ServiceKey(ctx, b), BackendOf(ctx, b);
    if key !in ctx.services {
      return {PortPair(backend.portNumber, backend.portNumber)};
    }
    var ports, text := ctx.services[key], backend.portText;
    for k := 0 to |ports|
      invariant forall j :: 0 <= j < k ==> !Matches(ports[j], text)
    {
      var sp := ports[k];
      if !sp.tcp { continue; }
      if sp.portText == text || sp.name == text || sp.targetText == text {
        assert FirstMatch(ports, text, k);
        pairs := PairsOf(ctx, key, sp);
        return;
      }
    }
    return {};
  }

  /** What getBackendsAndSettingsMap may settle on: each backend it lists has exactly one port
      pair, and if it lists fewer than all, some backend does not resolve at all. */
  ghost predicate BackendsPass(ctx: Context, pairs: map<BackendId, PortPair>) {
    && (forall b :: b in pairs ==> Exists(ctx, b) && Resolves(ctx, b, {pairs[b]}))
    && (|| (forall b :: Exists(ctx, b) ==> b in pairs)
        || (exists b :: Exists(ctx, b) && b !in pairs && Resolves(ctx, b, {})))
  }

  /** The loop over the backends in map order; it stops at the first that does not resolve. */
  method FindPairs(ctx: Context) returns (found: map<BackendId, set<PortPair>>)
    ensures forall b :: b in found ==> Exists(ctx, b) && Resolves(ctx, b, found[b]) && found[b] != {}
    ensures
      || (forall b :: Exists(ctx, b) ==> b in found)
      || (exists b :: Exists(ctx, b) && b !in found && Resolves(ctx, b, {}))
  {
    var ids := NewBackendIds(ctx);
    var order := VisitOrder(ids);
    found := map[];
    for k := 0 to |order|
      invariant forall b :: b in found <==> b in order[..k]
      invariant forall b :: b in found ==> Exists(ctx, b) && Resolves(ctx, b, found[b]) && found[b] != {}
    {
      assert order[k] in ids;
      var ps := ResolvePorts(ctx, order[k]);
      if ps == {} {
        assert order[k] !in order[..k];
        return;
      }
      found := found[order[k] := ps];
    }
    assert order[..|order|] == order;
  }

  /** One port pair per backend. `None`: some backend has more than one. */
  method SettlePairs(found: map<BackendId, set<PortPair>>) returns (pairs: Option<map<BackendId, PortPair>>)
    requires forall b :: b in found ==> found[b] != {}
    ensures pairs.Some? ==> pairs.value.Keys == found.Keys && forall b :: b in found ==> found[b] == {pairs.value[b]}
    ensures pairs.None? ==> exists b :: b in found && |found[b]| > 1
  {
    var settled: map<BackendId, PortPair> := map[];
    var visit := VisitOrder(found.Keys);
    for v := 0 to |visit|
      invariant forall b :: b in settled <==> b in visit[..v]
      invariant forall b :: b in settled ==> b in found && found[b] == {settled[b]}
    {
      assert visit[v] in found;
      var ps := found[visit[v]];
      if |ps| > 1 { return None; }
      var pair :| pair in ps;
      assert ps == {pair} by { assert |ps - {pair}| == |ps| - 1; }
      settled := settled[visit[v] := pair];
    }
    assert visit[..|visit|] == visit;
    pairs := Some(settled);
  }

  /** getBackendsAndSettingsMap's port pairs. `None`: some backend has more than one pair. */
  method GetBackends(ctx: Context) returns (pairs: Option<map<BackendId, PortPair>>)
    ensures pairs.Some? ==> BackendsPass(ctx, pairs.value)
    ensures pairs.None? ==> exists b, ps :: Exists(ctx, b) && Resolves(ctx, b, ps) && |ps| > 1
  {
    var found := FindPairs(ctx);
    pairs := SettlePairs(found);
  }

  // ---------------------------------------------------------------- what is made for a backend

  /** newProbesMap: a probe of its own only for a path whose service exists. */
  function ProbeFor(ctx: Context, b: BackendId): Id
    requires Exists(ctx, b)
  {
    var ing, backend := IngressOf(ctx, b), BackendOf(ctx, b);
    if b.PathOf? && ServiceKey(ctx, b) in ctx.services
      then ProbeName(ing.ns, backend.service, backend.portText, ing.name)
    else DefaultProbeName(if ing.backendHttps then HTTPS else HTTP)
  }

  function SettingFor(ctx: Context, b: BackendId, pair: PortPair): Setting
    requires Exists(ctx, b)
  {
    Setting(SettingsName(ServiceFullName(ctx, b), BackendOf(ctx, b).portText, pair.backendPort, IngressOf(ctx, b).name),
            pair.backendPort, ProbeFor(ctx, b))
  }

  const DEFAULT_SETTING: Setting := Setting(DefaultSettingsName, 80, DefaultProbeName(HTTP))

  /** Some endpoint subset of the service offers the backend port over TCP. */
  predicate HasEndpoints(ctx: Context, b: BackendId, pair: PortPair)
    requires Exists(ctx, b)
  {
    && ServiceKey(ctx, b) in ctx.endpoints
    && exists ports :: ports in ctx.endpoints[ServiceKey(ctx, b)] && Offers(ports, pair.backendPort)
  }

  predicate Offers(ports: seq<EndpointPort>, number: int) {
    exists j :: 0 <= j < |ports| && ports[j].tcp && ports[j].port == number
  }

  function OwnPoolName(ctx: Context, b: BackendId, pair: PortPair): Id
    requires Exists(ctx, b)
  {
    PoolName(ServiceFullName(ctx, b), BackendOf(ctx, b).portText, pair.backendPort)
  }

  /** newBackendPoolMap: its own pool, or the default one when no endpoint offers the port. */
  function PoolFor(ctx: Context, b: BackendId, pair: PortPair): Id
    requires Exists(ctx, b)
  {
    if HasEndpoints(ctx, b, pair) then OwnPoolName(ctx, b, pair) else DefaultPoolName
  }

  ghost predicate PoolsPass(ctx: Context, pairs: map<BackendId, PortPair>, pools: set<Id>)
    requires forall b :: b in pairs ==> Exists(ctx, b)
  {
    forall p :: p in pools <==> p == DefaultPoolName || exists b :: b in pairs && p == PoolFor(ctx, b, pairs[b])
  }

  /** getPools. */
  method GetPools(ctx: Context, pairs: map<BackendId, PortPair>) returns (pools: set<Id>)
    requires forall b :: b in pairs ==> Exists(ctx, b)
    ensures PoolsPass(ctx, pairs, pools)
  {
    var order := VisitOrder(pairs.Keys);
    pools := PoolsInOrder(ctx, pairs, order, PoolsOf(ctx, pairs, order));
    PoolsOfAre(ctx, pairs, order);
  }

  method PoolsInOrder(ctx: Context, pairs: map<BackendId, PortPair>, order: seq<BackendId>, ghost own: seq<Id>)
    returns (pools: set<Id>)
    requires forall b :: b in order ==> b in pairs && Exists(ctx, b)
    requires |own| == |order| && forall k :: 0 <= k < |own| ==> own[k] == PoolFor(ctx, order[k], pairs[order[k]])
    ensures Pooled(own, pools)
  {
    pools := {DefaultPoolName};
    for k := 0 to |order|
      invariant Pooled(own[..k], pools)
    {
      var pool := GetBackendPool(ctx, order[k], pairs[order[k]]);
      PooledSnoc(own[..k], pools, pool, own[k]);
      assert own[..k + 1] == own[..k] + [own[k]];
      if pool.Some? {
        pools := pools + {pool.value};
      }
    }
    assert own[..|order|] == own;
  }

  ghost predicate Pooled(own: seq<Id>, pools: set<Id>) {
    forall p :: p in pools <==> p == DefaultPoolName || p in own
  }

  lemma PooledSnoc(own: seq<Id>, pools: set<Id>, pool: Option<Id>, next: Id)
    requires Pooled(own, pools) && next == if pool.Some? then pool.value else DefaultPoolName
    ensures Pooled(own + [next], if pool.Some? then pools + {pool.value} else pools)
  {
  }

  /** getBackendAddressPool: the name of the backend's own pool when an endpoint offers the port. */
  method GetBackendPool(ctx: Context, b: BackendId, pair: PortPair) returns (pool: Option<Id>)
    requires Exists(ctx, b)
    ensures PoolFor(ctx, b, pair) == if pool.Some? then pool.value else DefaultPoolName
    ensures pool.Some? <==> HasEndpoints(ctx, b, pair)
  {
    return if HasEndpoints(ctx, b, pair) then Some(OwnPoolName(ctx, b, pair)) else None;
  }

  lemma PoolsOfAre(ctx: Context, pairs: map<BackendId, PortPair>, order: seq<BackendId>)
    requires forall b :: b in pairs ==> Exists(ctx, b)
    requires forall b :: b in order <==> b in pairs
    ensures forall p :: p in PoolsOf(ctx, pairs, order) <==> exists b :: b in pairs && p == PoolFor(ctx, b, pairs[b])
  {
    var own := PoolsOf(ctx, pairs, order);
    forall b | b in pairs ensures PoolFor(ctx, b, pairs[b]) in own {
      assert b in order;
      var k :| 0 <= k < |order| && order[k] == b;
      assert own[k] == PoolFor(ctx, b, pairs[b]);
    }
  }

  /** The pool of each backend in the order visited. */
  ghost function PoolsOf(ctx: Context, pairs: map<BackendId, PortPair>, order: seq<BackendId>): (pools: seq<Id>)
    requires forall b :: b in pairs ==> Exists(ctx, b)
    requires forall b :: b in order ==> b in pairs
    ensures |pools| == |order| && forall k :: 0 <= k < |order| ==>
      order[k] in order && pools[k] == PoolFor(ctx, order[k], pairs[order[k]])
  {
    seq(|order|, k requires 0 <= k < |order| && order[k] in order => PoolFor(ctx, order[k], pairs[order[k]]))
  }

  /** backendHTTPSettingsMap. */
  function SettingsByBackend(ctx: Context, pairs: map<BackendId, PortPair>): map<BackendId, Setting>
    requires forall b :: b in pairs ==> Exists(ctx, b)
  {
    map b | b in pairs :: SettingFor(ctx, b, pairs[b])
  }

  /** The settings list: the default one and one per name; of backends with equal names, some one
      backend's. */
  ghost predicate SettingsPass(own: map<BackendId, Setting>, settings: seq<Setting>) {
    && (forall i, j :: 0 <= i < j < |settings| ==> settings[i].name != settings[j].name)
    && (forall s :: s in settings ==> s == DEFAULT_SETTING || exists b :: b in own && s == own[b])
    && (exists s :: s in settings && s.name == DefaultSettingsName)
    && (forall b :: b in own ==> exists s :: s in settings && s.name == own[b].name)
  }

  method SettingsInMapOrder(byName: map<Id, Setting>) returns (settings: seq<Setting>)
    requires forall n :: n in byName ==> byName[n].name == n
    ensures forall i, j :: 0 <= i < j < |settings| ==> settings[i].name != settings[j].name
    ensures forall n :: n in byName ==> byName[n] in settings
    ensures forall s :: s in settings ==> s.name in byName && byName[s.name] == s
  {
    var names, values := ValuesInMapOrder(byName);
    settings := values;
    assert forall i :: 0 <= i < |settings| ==> settings[i].name == names[i];
    forall n | n in byName ensures byName[n] in settings {
      assert n in names;
      var i :| 0 <= i < |names| && names[i] == n;
      assert settings[i] == byName[n];
    }
  }

  method GetSettings(own: map<BackendId, Setting>) returns (settings: seq<Setting>)
    ensures SettingsPass(own, settings)
  {
    var byName: map<Id, Setting> := map[DefaultSettingsName := DEFAULT_SETTING];
    var order := VisitOrder(own.Keys);
    for k := 0 to |order|
      invariant DefaultSettingsName in byName
      invariant forall n :: n in byName ==> byName[n].name == n
      invariant forall n :: n in byName ==> byName[n] == DEFAULT_SETTING || exists b :: b in own && byName[n] == own[b]
      invariant forall b :: b in order[..k] ==> b in own && own[b].name in byName
    {
      assert order[k] in own;
      byName := byName[own[order[k]].name := own[order[k]]];
    }
    assert order[..|order|] == order;
    settings := SettingsInMapOrder(byName);
    assert byName[DefaultSettingsName] in settings;
    forall b | b in own ensures exists s :: s in settings && s.name == own[b].name {
      assert b in order && byName[own[b].name] in settings;
    }
  }

  predicate IsDefaultProbe(p: Id) {
    p == DefaultProbeName(HTTP) || p == DefaultProbeName(HTTPS)
  }

  ghost predicate ProbesPass(ctx: Context, probes: set<Id>) {
    forall p :: p in probes <==> IsDefaultProbe(p) || exists b :: Exists(ctx, b) && p == ProbeFor(ctx, b)
  }

  /** The names newProbesMap collects. */
  method GetProbes(ctx: Context) returns (probes: set<Id>)
    ensures ProbesPass(ctx, probes)
  {
    var ids := NewBackendIds(ctx);
    probes := {DefaultProbeName(HTTP), DefaultProbeName(HTTPS)};
    var order := VisitOrder(ids);
    for k := 0 to |order|
      invariant forall p :: p in probes <==>
        IsDefaultProbe(p) || exists b :: b in order[..k] && Exists(ctx, b) && p == ProbeFor(ctx, b)
    {
      var b := order[k];
      assert b in ids && order[..k + 1] == order[..k] + [b];
      if !IsDefaultProbe(ProbeFor(ctx, b)) {
        probes := probes + {ProbeFor(ctx, b)};
      }
    }
    assert order[..|order|] == order;
  }
}
