/**
 What a greenfield build may produce: each pass as a relation between its inputs and its
 result, whatever the order in which maps are visited (pkg/appgw/frontend_listeners.go,
 pkg/appgw/redirects.go, pkg/appgw/requestroutingrules.go, pkg/appgw/certificates.go).
 */
module BuildSpec {
  import opened Iteration
  import opened Sorting
  import opened Resources
  import opened RoutingTypes
  import opened ListenerIds
  import opened IngressListeners
  import opened Backends
  import opened PathMaps

  // ---------------------------------------------------------------- listeners and ports

  predicate IpMatches(ip: FrontendIp, privateIp: bool) {
    ip.hasProps && ((privateIp && ip.hasPrivate) || (!privateIp && ip.hasPublic))
  }

  /** LookupIPConfigurationByType. */
  function FirstIp(ips: seq<FrontendIp>, privateIp: bool): (ip: Option<FrontendIp>)
    ensures ip.Some? ==> ip.value in ips && IpMatches(ip.value, privateIp)
  {
    if ips == [] then None
    else if IpMatches(ips[0], privateIp) then Some(ips[0])
    else FirstIp(ips[1..], privateIp)
  }

  /** LookupIPConfigurationByID. */
  function IpById(ips: seq<FrontendIp>, id: string): Option<FrontendIp> {
    if ips == [] then None else if ips[0].id == id then Some(ips[0]) else IpById(ips[1..], id)
  }

  /** The gateway has a frontend IP of every kind a configured listener uses. */
  predicate IpsReady(ctx: Context, configs: map<ListenerId, AzConfig>) {
    forall id :: id in configs ==> FirstIp(ctx.frontendIps, id.privateIp).Some?
  }

  /** The existing port for the listener's number, or the one to create. */
  function PortFor(ctx: Context, id: ListenerId): FrontendPort {
    if id.port in ctx.ports then ctx.ports[id.port] else FrontendPort(PortName(id.port), PortName(id.port), id.port)
  }

  /** newListener, with certificate and firewall policy attached. */
  function MakeListener(ctx: Context, id: ListenerId, c: AzConfig): Listener
    requires FirstIp(ctx.frontendIps, id.privateIp).Some?
    requires c.protocol == HTTPS ==> c.secret.Some?
  {
    var hosts := NonBlank(id.hostNames);
    Listener(ListenerName(id), FirstIp(ctx.frontendIps, id.privateIp).value.id, PortFor(ctx, id).id, c.protocol,
             if |hosts| == 1 then Some(hosts[0]) else None,
             if |hosts| > 1 then Some(hosts) else None,
             if c.protocol == HTTPS then Some(CertName(SecretFullName(c.secret.value))) else None,
             if c.firewall != "" then Some(c.firewall) else None)
  }

  function ListenerOf(ctx: Context, configs: map<ListenerId, AzConfig>, id: ListenerId): Listener
    requires id in configs && FirstIp(ctx.frontendIps, id.privateIp).Some?
    requires configs[id].protocol == HTTPS ==> configs[id].secret.Some?
  {
    MakeListener(ctx, id, configs[id])
  }

  /** `ctx.ports` is keyed by port number, as the caller of the build makes it. */
  ghost predicate PortsKeyed(ctx: Context) {
    forall n :: n in ctx.ports ==> ctx.ports[n].number == n
  }

  /** What every build starts from. */
  ghost predicate Shaped(ctx: Context, configs: map<ListenerId, AzConfig>) {
    PortsKeyed(ctx) && forall id :: id in configs ==> Shape(ctx, id, configs[id])
  }

  ghost predicate Ready(ctx: Context, configs: map<ListenerId, AzConfig>) {
    IpsReady(ctx, configs) && Shaped(ctx, configs)
  }

  /** Why a private listener may be left out: a public one has its port. */
  ghost predicate Crowded(ctx: Context, ids: seq<ListenerId>, id: ListenerId) {
    && id.privateIp
    && exists k :: 0 <= k < |ids| && !ids[k].privateIp && PortFor(ctx, ids[k]).name == PortFor(ctx, id).name
  }

  ghost predicate Admitted(ctx: Context, configs: map<ListenerId, AzConfig>, ids: seq<ListenerId>) {
    && Distinct(ids)
    && (forall k :: 0 <= k < |ids| ==> ids[k] in configs)
    && (forall id :: id in configs && id !in ids ==> Crowded(ctx, ids, id))
  }

  /** A port known to the build once the listeners `ids` are made. */
  ghost predicate KnownPort(ctx: Context, ids: seq<ListenerId>, p: FrontendPort) {
    || (exists n :: n in ctx.ports && p == ctx.ports[n])
    || (exists k :: 0 <= k < |ids| && p == PortFor(ctx, ids[k]))
  }

  ghost predicate UsesPort(ctx: Context, ids: seq<ListenerId>, portId: Id) {
    exists k :: 0 <= k < |ids| && PortFor(ctx, ids[k]).id == portId
  }

  lemma KnownPortSame(ctx: Context, ids: seq<ListenerId>, ids': seq<ListenerId>, p: FrontendPort)
    requires forall x :: x in ids ==> x in ids'
    ensures KnownPort(ctx, ids, p) ==> KnownPort(ctx, ids', p)
  {
    if k :| 0 <= k < |ids| && p == PortFor(ctx, ids[k]) {
      assert ids[k] in ids;
      var j :| 0 <= j < |ids'| && ids'[j] == ids[k];
    }
  }

  lemma UsesPortSame(ctx: Context, ids: seq<ListenerId>, ids': seq<ListenerId>, n: Id)
    requires forall x :: x in ids ==> x in ids'
    ensures UsesPort(ctx, ids, n) ==> UsesPort(ctx, ids', n)
  {
    if k :| 0 <= k < |ids| && PortFor(ctx, ids[k]).id == n {
      assert ids[k] in ids;
      var j :| 0 <= j < |ids'| && ids'[j] == ids[k];
    }
  }

  /** getListeners: one listener per admitted identifier, and the known ports they use. */
  ghost predicate ListenersPass(ctx: Context, configs: map<ListenerId, AzConfig>, ids: seq<ListenerId>,
                                listeners: seq<Listener>, ports: seq<FrontendPort>)
    requires Ready(ctx, configs)
  {
    && Admitted(ctx, configs, ids)
    && |listeners| == |ids| && (forall k :: 0 <= k < |ids| ==> listeners[k] == ListenerOf(ctx, configs, ids[k]))
    && (forall i, j :: 0 <= i < j < |ports| ==> ports[i].number != ports[j].number)
    && (forall p :: p in ports <==> KnownPort(ctx, ids, p) && UsesPort(ctx, ids, p.id))
  }

  // ---------------------------------------------------------------- identifiers rebuilt

  function PortsById(ports: seq<FrontendPort>): map<Id, FrontendPort> {
    Zip(seq(|ports|, k requires 0 <= k < |ports| => ports[k].id), ports)
  }

  /** The identifier groupListenersByListenerIdentifier rebuilds from a listener. */
  function Recover(ctx: Context, byId: map<Id, FrontendPort>, l: Listener): ListenerId {
    var ip := IpById(ctx.frontendIps, l.frontendIp);
    var privateIp := ip.Some? && ip.value.hasProps && ip.value.hasPrivate;
    var port := if l.port in byId then byId[l.port].number else 0;
    var hosts := if l.hostNames.Some? then l.hostNames.value else if l.hostName.Some? then [l.hostName.value] else [];
    WithHosts(Bare(port, privateIp), hosts)
  }

  function Recovered(ctx: Context, byId: map<Id, FrontendPort>, ls: seq<Listener>): (ids: seq<ListenerId>)
    ensures |ids| == |ls|
    ensures forall k :: 0 <= k < |ls| ==> ids[k] == Recover(ctx, byId, ls[k])
  {
    seq(|ls|, k requires 0 <= k < |ls| => Recover(ctx, byId, ls[k]))
  }

  /** groupListenersByListenerIdentifier. */
  function Group(ctx: Context, byId: map<Id, FrontendPort>, ls: seq<Listener>): map<ListenerId, Listener> {
    Zip(Recovered(ctx, byId, ls), ls)
  }

  // ---------------------------------------------------------------- redirects and certificates

  /** The listener is HTTPS, exists, and its configuration names a redirect. */
  predicate GetsRedirect(configs: map<ListenerId, AzConfig>, byId: map<ListenerId, Listener>, id: ListenerId) {
    id in configs && id in byId && configs[id].protocol == HTTPS && configs[id].redirect.Some?
  }

  /** getRedirectConfigurations: one redirect for each of `targets`, which are the listeners that get one. */
  ghost predicate RedirectsPass(configs: map<ListenerId, AzConfig>, byId: map<ListenerId, Listener>,
                                targets: seq<ListenerId>, redirects: seq<Redirect>) {
    && Distinct(targets) && (forall id :: id in targets <==> GetsRedirect(configs, byId, id))
    && |redirects| == |targets|
    && (forall k :: 0 <= k < |targets| ==>
          targets[k] in targets && redirects[k] == Redirect(configs[targets[k]].redirect.value, byId[targets[k]].name))
  }

  function RedirectIds(redirects: seq<Redirect>): set<Id> {
    set k | 0 <= k < |redirects| :: redirects[k].name
  }

  ghost predicate CertsPass(ctx: Context, certs: set<Id>) {
    forall c :: c in certs <==>
      exists i, s ::
        && 0 <= i < |ctx.ingresses| && s in SecretsWithCert(ctx, ctx.ingresses[i])
        && c == CertName(SecretFullName(s))
  }

  // ---------------------------------------------------------------- rules

  /** One round of getRules' loop. */
  function RuleFor(id: ListenerId, m: Props, l: Listener): Rule {
    var bare := RoutingRule(RuleName(id), Some(l.name), Basic, None, None, None, None, None);
    if RulesIn(m) != [] then bare.(ruleType := PathBasedRouting, pathMap := Some(PathMapName(id)))
    else if m.redirect.Some? then bare.(redirect := m.redirect)
    else bare.(pool := m.pool, settings := m.settings)
  }

  /** getRules: one rule for each of `ruleIds`, which are the identifiers that have both a path map
      and a listener; and the path map of each of `pathIds`, those among them with path rules. */
  ghost predicate RulesPass(maps: map<ListenerId, Props>, byId: map<ListenerId, Listener>,
                            ruleIds: seq<ListenerId>, rules: seq<Rule>, pathIds: seq<ListenerId>,
                                pathMaps: seq<UrlPathMap>) {
    && Distinct(ruleIds) && (forall id :: id in ruleIds <==> id in maps && id in byId)
    && |rules| == |ruleIds|
    && (forall k :: 0 <= k < |ruleIds| ==>
          ruleIds[k] in ruleIds && rules[k] == RuleFor(ruleIds[k], maps[ruleIds[k]], byId[ruleIds[k]]))
    && Distinct(pathIds) && (forall id :: id in pathIds <==> id in maps && id in byId && RulesIn(maps[id]) != [])
    && |pathMaps| == |pathIds|
    && (forall k :: 0 <= k < |pathIds| ==>
          pathIds[k] in pathIds && pathMaps[k] == UrlPathMap(PathMapName(pathIds[k]), maps[pathIds[k]]))
  }

  // ---------------------------------------------------------------- sorting by name

  function ListenerRank(ctx: Context): Listener -> real { (l: Listener) => ctx.nameRank(l.name) }
  function PortRank(ctx: Context): FrontendPort -> real { (p: FrontendPort) => ctx.nameRank(p.name) }
  function RedirectRank(ctx: Context): Redirect -> real { (r: Redirect) => ctx.nameRank(r.name) }
  function RuleRank(ctx: Context): Rule -> real { (r: Rule) => ctx.nameRank(r.name) }
  function PathMapRank(ctx: Context): UrlPathMap -> real { (m: UrlPathMap) => ctx.nameRank(m.name) }

  /** The lists are sorted by name before they are stored, listeners and ports also before the
      listeners are grouped. */
  ghost predicate SortedByName(ctx: Context, b: Built) {
    && Sorted(b.listeners, ListenerRank(ctx)) && Sorted(b.ports, PortRank(ctx))
    && Sorted(b.redirects, RedirectRank(ctx))
    && Sorted(b.rules, RuleRank(ctx)) && Sorted(b.pathMaps, PathMapRank(ctx))
  }

  // ---------------------------------------------------------------- the whole build

  /** The result of a build. `ids`, `targets`, `ruleIds` and `pathIds` say which identifier each
      listener, redirect, rule and path map was made for; `byId` and `maps` are intermediate results. */
  datatype Built = Built(
    configs: map<ListenerId, AzConfig>,
    ids: seq<ListenerId>,
    listeners: seq<Listener>,
    ports: seq<FrontendPort>,
    byId: map<ListenerId, Listener>,
    targets: seq<ListenerId>,
    redirects: seq<Redirect>,
    pairs: map<BackendId, PortPair>,
    settings: seq<Setting>,
    pools: set<Id>,
    probes: set<Id>,
    certs: set<Id>,
    maps: map<ListenerId, Props>,
    ruleIds: seq<ListenerId>,
    rules: seq<Rule>,
    pathIds: seq<ListenerId>,
    pathMaps: seq<UrlPathMap>
  )

  /** Every pass met its specification. */
  ghost predicate Passes(ctx: Context, b: Built) {
    && Ready(ctx, b.configs)
    && ListenersPass(ctx, b.configs, b.ids, b.listeners, b.ports)
    && b.byId == Group(ctx, PortsById(b.ports), b.listeners)
    && RedirectsPass(b.configs, b.byId, b.targets, b.redirects)
    && BackendsPass(ctx, b.pairs)
    && SettingsPass(SettingsByBackend(ctx, b.pairs), b.settings)
    && PoolsPass(ctx, b.pairs, b.pools)
    && ProbesPass(ctx, b.probes)
    && CertsPass(ctx, b.certs)
    && PathMapsPass(ctx, EnvOf(b), b.maps)
    && RulesPass(b.maps, b.byId, b.ruleIds, b.rules, b.pathIds, b.pathMaps)
    && SortedByName(ctx, b)
  }

  ghost predicate IsBuild(ctx: Context, b: Built) {
    b.configs == Configs(ctx) && Passes(ctx, b)
  }

  function EnvOf(b: Built): Env {
    Env(b.pairs, RedirectIds(b.redirects))
  }
}
