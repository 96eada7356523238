/**
 The greenfield build does not depend on the order in which its maps are visited
 (pkg/appgw/frontend_listeners.go, pkg/appgw/requestroutingrules.go).
 */
module BuildOrder {
  import opened Sorting
  import opened RoutingTypes
  import opened ListenerIds
  import opened IngressListeners
  import opened Backends
  import opened PathMaps
  import opened BuildSpec

  ghost predicate SameElements<T(!new)>(a: seq<T>, b: seq<T>) {
    forall x :: x in a <==> x in b
  }

  /** Different names are placed differently, as different strings are. */
  ghost predicate RankTellsApart(ctx: Context) {
    forall m, n :: ctx.nameRank(m) == ctx.nameRank(n) ==> m == n
  }

  /** Existing ports have names of their own, and none has the name generated for another number. */
  ghost predicate PortNamesDistinct(ctx: Context) {
    && (forall m, n :: m in ctx.ports && n in ctx.ports && ctx.ports[m].name == ctx.ports[n].name ==> m == n)
    && (forall m, n :: m in ctx.ports && ctx.ports[m].name == PortName(n) ==> m == n)
  }

  /** No port is asked for by both public and private listeners. */
  ghost predicate NoSharedPort(ctx: Context, configs: map<ListenerId, AzConfig>) {
    forall p, q :: p in configs && q in configs && p.privateIp && !q.privateIp ==>
      PortFor(ctx, p).name != PortFor(ctx, q).name
  }

  ghost predicate AllResolve(ctx: Context) {
    forall b :: Exists(ctx, b) ==> exists pair :: Resolves(ctx, b, {pair})
  }

  ghost predicate GaplessConfigs(configs: map<ListenerId, AzConfig>) {
    forall id :: id in configs ==> Gapless(id.hostNames)
  }

  lemma AllAdmitted(ctx: Context, configs: map<ListenerId, AzConfig>, ids: seq<ListenerId>)
    requires Admitted(ctx, configs, ids) && NoSharedPort(ctx, configs)
    ensures forall id :: id in ids <==> id in configs
  {
  }

  lemma PairsDetermined(ctx: Context, p: map<BackendId, PortPair>, q: map<BackendId, PortPair>)
    requires AllResolve(ctx) && BackendsPass(ctx, p) && BackendsPass(ctx, q)
    ensures p == q
  {
    forall b | Exists(ctx, b) ensures !Resolves(ctx, b, {}) {
      var pair :| Resolves(ctx, b, {pair});
      if Resolves(ctx, b, {}) {
        ResolvesOnce(ctx, b, {pair}, {});
      }
    }
    forall b | b in p && b in q ensures p[b] == q[b] {
      ResolvesOnce(ctx, b, {p[b]}, {q[b]});
      assert p[b] in {q[b]};
    }
  }

  lemma SameListeners(ctx: Context, a: Built, b: Built)
    requires a.configs == b.configs
    requires Ready(ctx, a.configs) && ListenersPass(ctx, a.configs, a.ids, a.listeners, a.ports)
    requires ListenersPass(ctx, a.configs, b.ids, b.listeners, b.ports)
    requires forall id :: id in a.ids <==> id in b.ids
    ensures SameElements(a.listeners, b.listeners)
  {
    OneWay(ctx, a, b);
    OneWay(ctx, b, a);
  }

  /** Lists made element by element from the same keys have the same elements. */
  lemma MadeOneWay<K, V>(ia: seq<K>, xa: seq<V>, ib: seq<K>, xb: seq<V>)
    requires |xa| == |ia| && |xb| == |ib|
    requires forall i :: 0 <= i < |ia| ==> ia[i] in ib
    requires forall i, j :: 0 <= i < |ia| && 0 <= j < |ib| && ia[i] == ib[j] ==> xa[i] == xb[j]
    ensures forall i :: 0 <= i < |xa| ==> xa[i] in xb
  {
    forall i | 0 <= i < |xa| ensures xa[i] in xb {
      assert ia[i] in ib;
      var j :| 0 <= j < |ib| && ib[j] == ia[i];
      assert xa[i] == xb[j];
    }
  }

  lemma OneWay(ctx: Context, a: Built, b: Built)
    requires a.configs == b.configs
    requires Ready(ctx, a.configs) && ListenersPass(ctx, a.configs, a.ids, a.listeners, a.ports)
    requires ListenersPass(ctx, a.configs, b.ids, b.listeners, b.ports)
    requires forall id :: id in a.ids <==> id in b.ids
    ensures forall l :: l in a.listeners ==> l in b.listeners
  {
    MadeOneWay(a.ids, a.listeners, b.ids, b.listeners);
  }

  /** The ports follow from the admitted identifiers. */
  lemma PortsOneWay(ctx: Context, ia: seq<ListenerId>, pa: seq<FrontendPort>, ib: seq<ListenerId>,
                    pb: seq<FrontendPort>)
    requires forall p :: p in pa <==> KnownPort(ctx, ia, p) && UsesPort(ctx, ia, p.id)
    requires forall p :: p in pb <==> KnownPort(ctx, ib, p) && UsesPort(ctx, ib, p.id)
    requires forall id :: id in ia <==> id in ib
    ensures forall p :: p in pa ==> p in pb
  {
    forall p | p in pa ensures p in pb {
      KnownPortSame(ctx, ia, ib, p);
      UsesPortSame(ctx, ia, ib, p.id);
    }
  }

  lemma SamePorts(ctx: Context, ia: seq<ListenerId>, pa: seq<FrontendPort>, ib: seq<ListenerId>, pb: seq<FrontendPort>)
    requires forall p :: p in pa <==> KnownPort(ctx, ia, p) && UsesPort(ctx, ia, p.id)
    requires forall p :: p in pb <==> KnownPort(ctx, ib, p) && UsesPort(ctx, ib, p.id)
    requires forall id :: id in ia <==> id in ib
    ensures SameElements(pa, pb)
  {
    PortsOneWay(ctx, ia, pa, ib, pb);
    PortsOneWay(ctx, ib, pb, ia, pa);
  }

  lemma SameRedirects(configs: map<ListenerId, AzConfig>, byId: map<ListenerId, Listener>, ta: seq<ListenerId>,
                      ra: seq<Redirect>, tb: seq<ListenerId>, rb: seq<Redirect>)
    requires RedirectsPass(configs, byId, ta, ra) && RedirectsPass(configs, byId, tb, rb)
    ensures SameElements(ra, rb) && RedirectIds(ra) == RedirectIds(rb)
  {
    RedirectsOneWay(configs, byId, ta, ra, tb, rb);
    RedirectsOneWay(configs, byId, tb, rb, ta, ra);
  }

  lemma RedirectsOneWay(configs: map<ListenerId, AzConfig>, byId: map<ListenerId, Listener>, ta: seq<ListenerId>,
                        ra: seq<Redirect>, tb: seq<ListenerId>, rb: seq<Redirect>)
    requires RedirectsPass(configs, byId, ta, ra) && RedirectsPass(configs, byId, tb, rb)
    ensures (forall r :: r in ra ==> r in rb) && RedirectIds(ra) <= RedirectIds(rb)
  {
    MadeOneWay(ta, ra, tb, rb);
    forall k | 0 <= k < |ra| ensures ra[k].name in RedirectIds(rb) {
      assert ra[k] in rb;
    }
  }

  lemma MapsDetermined(ctx: Context, env: Env, p: map<ListenerId, Props>, q: map<ListenerId, Props>)
    requires PathMapsPass(ctx, env, p) && PathMapsPass(ctx, env, q)
    ensures p == q
  {
  }

  lemma RulesOneWay(maps: map<ListenerId, Props>, byId: map<ListenerId, Listener>, a: Built, b: Built)
    requires RulesPass(maps, byId, a.ruleIds, a.rules, a.pathIds, a.pathMaps)
    requires RulesPass(maps, byId, b.ruleIds, b.rules, b.pathIds, b.pathMaps)
    ensures (forall r :: r in a.rules ==> r in b.rules) && (forall m :: m in a.pathMaps ==> m in b.pathMaps)
  {
    MadeOneWay(a.ruleIds, a.rules, b.ruleIds, b.rules);
    MadeOneWay(a.pathIds, a.pathMaps, b.pathIds, b.pathMaps);
  }

  lemma SamePools(ctx: Context, pairs: map<BackendId, PortPair>, a: set<Id>, b: set<Id>)
    requires (forall x :: x in pairs ==> Exists(ctx, x)) && PoolsPass(ctx, pairs, a) && PoolsPass(ctx, pairs, b)
    ensures a == b
  {
  }

  // ---------------------------------------------------------------- names tell the elements apart

  /** A list sorted by a rank that tells its elements apart is strictly sorted. */
  lemma StrictlySorted<T>(xs: seq<T>, key: T -> real)
    requires Sorted(xs, key) && forall i, j :: 0 <= i < j < |xs| ==> key(xs[i]) != key(xs[j])
    ensures forall i, j :: 0 <= i < j < |xs| ==> key(xs[i]) < key(xs[j])
  {
  }

  lemma ListenerNamesDiffer(ctx: Context, configs: map<ListenerId, AzConfig>, ids: seq<ListenerId>,
                            listeners: seq<Listener>, ports: seq<FrontendPort>)
    requires Ready(ctx, configs) && ListenersPass(ctx, configs, ids, listeners, ports)
    ensures forall i, j :: 0 <= i < j < |listeners| ==> listeners[i].name != listeners[j].name
  {
    assert forall k :: 0 <= k < |ids| ==> listeners[k].name == ListenerName(ids[k]);
  }

  lemma KnownPortNames(ctx: Context, ids: seq<ListenerId>, p: FrontendPort, q: FrontendPort)
    requires PortsKeyed(ctx) && PortNamesDistinct(ctx) && KnownPort(ctx, ids, p) && KnownPort(ctx, ids, q)
    ensures p.name == q.name ==> p.number == q.number
  {
  }

  lemma PortNamesDiffer(ctx: Context, configs: map<ListenerId, AzConfig>, ids: seq<ListenerId>,
                        listeners: seq<Listener>, ports: seq<FrontendPort>)
    requires Ready(ctx, configs) && ListenersPass(ctx, configs, ids, listeners, ports) && PortNamesDistinct(ctx)
    ensures forall i, j :: 0 <= i < j < |ports| ==> ports[i].name != ports[j].name
  {
    forall i, j | 0 <= i < j < |ports| ensures ports[i].name != ports[j].name {
      assert ports[i] in ports && ports[j] in ports;
      KnownPortNames(ctx, ids, ports[i], ports[j]);
    }
  }

  lemma RedirectNamesDiffer(ctx: Context, configs: map<ListenerId, AzConfig>, byId: map<ListenerId, Listener>,
                            targets: seq<ListenerId>, redirects: seq<Redirect>)
    requires Shaped(ctx, configs) && RedirectsPass(configs, byId, targets, redirects)
    ensures forall i, j :: 0 <= i < j < |redirects| ==> redirects[i].name != redirects[j].name
  {
    forall k | 0 <= k < |targets| ensures redirects[k].name == RedirectName(targets[k]) {
      assert targets[k] in targets;
      assert Shape(ctx, targets[k], configs[targets[k]]);
    }
  }

  lemma RuleNamesDiffer(b: Built)
    requires RulesPass(b.maps, b.byId, b.ruleIds, b.rules, b.pathIds, b.pathMaps)
    ensures forall i, j :: 0 <= i < j < |b.rules| ==> b.rules[i].name != b.rules[j].name
    ensures forall i, j :: 0 <= i < j < |b.pathMaps| ==> b.pathMaps[i].name != b.pathMaps[j].name
  {
    assert forall k :: 0 <= k < |b.ruleIds| ==> b.rules[k].name == RuleName(b.ruleIds[k]);
    assert forall k :: 0 <= k < |b.pathIds| ==> b.pathMaps[k].name == PathMapName(b.pathIds[k]);
  }

  // ---------------------------------------------------------------- the sorted lists are the same

  lemma SameListenerList(ctx: Context, a: Built, b: Built)
    requires a.configs == b.configs && Ready(ctx, a.configs) && RankTellsApart(ctx)
    requires ListenersPass(ctx, a.configs, a.ids, a.listeners, a.ports)
    requires ListenersPass(ctx, a.configs, b.ids, b.listeners, b.ports)
    requires Sorted(a.listeners, ListenerRank(ctx)) && Sorted(b.listeners, ListenerRank(ctx))
    requires forall id :: id in a.ids <==> id in b.ids
    ensures a.listeners == b.listeners
  {
    ListenerNamesDiffer(ctx, a.configs, a.ids, a.listeners, a.ports);
    ListenerNamesDiffer(ctx, a.configs, b.ids, b.listeners, b.ports);
    StrictlySorted(a.listeners, ListenerRank(ctx));
    StrictlySorted(b.listeners, ListenerRank(ctx));
    SameListeners(ctx, a, b);
    SortedIsUnique(a.listeners, b.listeners, ListenerRank(ctx));
  }

  lemma SamePortList(ctx: Context, a: Built, b: Built)
    requires a.configs == b.configs && Ready(ctx, a.configs) && RankTellsApart(ctx) && PortNamesDistinct(ctx)
    requires ListenersPass(ctx, a.configs, a.ids, a.listeners, a.ports)
    requires ListenersPass(ctx, a.configs, b.ids, b.listeners, b.ports)
    requires Sorted(a.ports, PortRank(ctx)) && Sorted(b.ports, PortRank(ctx))
    requires forall id :: id in a.ids <==> id in b.ids
    ensures a.ports == b.ports
  {
    PortNamesDiffer(ctx, a.configs, a.ids, a.listeners, a.ports);
    PortNamesDiffer(ctx, a.configs, b.ids, b.listeners, b.ports);
    StrictlySorted(a.ports, PortRank(ctx));
    StrictlySorted(b.ports, PortRank(ctx));
    SamePorts(ctx, a.ids, a.ports, b.ids, b.ports);
    SortedIsUnique(a.ports, b.ports, PortRank(ctx));
  }

  lemma SameRedirectList(ctx: Context, a: Built, b: Built)
    requires a.configs == b.configs && a.byId == b.byId && Shaped(ctx, a.configs) && RankTellsApart(ctx)
    requires RedirectsPass(a.configs, a.byId, a.targets, a.redirects)
    requires RedirectsPass(a.configs, a.byId, b.targets, b.redirects)
    requires Sorted(a.redirects, RedirectRank(ctx)) && Sorted(b.redirects, RedirectRank(ctx))
    ensures a.redirects == b.redirects
  {
    RedirectNamesDiffer(ctx, a.configs, a.byId, a.targets, a.redirects);
    RedirectNamesDiffer(ctx, a.configs, a.byId, b.targets, b.redirects);
    StrictlySorted(a.redirects, RedirectRank(ctx));
    StrictlySorted(b.redirects, RedirectRank(ctx));
    SameRedirects(a.configs, a.byId, a.targets, a.redirects, b.targets, b.redirects);
    SortedIsUnique(a.redirects, b.redirects, RedirectRank(ctx));
  }

  lemma SameRuleLists(ctx: Context, a: Built, b: Built)
    requires a.maps == b.maps && a.byId == b.byId && RankTellsApart(ctx)
    requires RulesPass(a.maps, a.byId, a.ruleIds, a.rules, a.pathIds, a.pathMaps)
    requires RulesPass(a.maps, a.byId, b.ruleIds, b.rules, b.pathIds, b.pathMaps)
    requires Sorted(a.rules, RuleRank(ctx)) && Sorted(b.rules, RuleRank(ctx))
    requires Sorted(a.pathMaps, PathMapRank(ctx)) && Sorted(b.pathMaps, PathMapRank(ctx))
    ensures a.rules == b.rules && a.pathMaps == b.pathMaps
  {
    RuleNamesDiffer(a);
    RuleNamesDiffer(b);
    StrictlySorted(a.rules, RuleRank(ctx));
    StrictlySorted(b.rules, RuleRank(ctx));
    StrictlySorted(a.pathMaps, PathMapRank(ctx));
    StrictlySorted(b.pathMaps, PathMapRank(ctx));
    RulesOneWay(a.maps, a.byId, a, b);
    RulesOneWay(a.maps, a.byId, b, a);
    SortedIsUnique(a.rules, b.rules, RuleRank(ctx));
    SortedIsUnique(a.pathMaps, b.pathMaps, PathMapRank(ctx));
  }

  /** Listeners, ports and groups. */
  lemma SameFront(ctx: Context, a: Built, b: Built)
    requires a.configs == b.configs && Ready(ctx, a.configs) && RankTellsApart(ctx) && PortNamesDistinct(ctx)
    requires NoSharedPort(ctx, a.configs)
    requires ListenersPass(ctx, a.configs, a.ids, a.listeners, a.ports)
    requires a.byId == Group(ctx, PortsById(a.ports), a.listeners)
    requires ListenersPass(ctx, a.configs, b.ids, b.listeners, b.ports)
    requires b.byId == Group(ctx, PortsById(b.ports), b.listeners)
    requires Sorted(a.listeners, ListenerRank(ctx)) && Sorted(b.listeners, ListenerRank(ctx))
    requires Sorted(a.ports, PortRank(ctx)) && Sorted(b.ports, PortRank(ctx))
    ensures a.listeners == b.listeners && a.ports == b.ports && a.byId == b.byId
  {
    AllAdmitted(ctx, a.configs, a.ids);
    AllAdmitted(ctx, a.configs, b.ids);
    SameListenerList(ctx, a, b);
    SamePortList(ctx, a, b);
  }

  /** Redirects, path maps and pools. */
  lemma SameBack(ctx: Context, a: Built, b: Built)
    requires a.configs == b.configs && a.redirects == b.redirects && AllResolve(ctx)
    requires BackendsPass(ctx, a.pairs) && BackendsPass(ctx, b.pairs) && PoolsPass(ctx, a.pairs, a.pools)
    requires PoolsPass(ctx, b.pairs, b.pools)
    requires PathMapsPass(ctx, EnvOf(a), a.maps) && PathMapsPass(ctx, EnvOf(b), b.maps)
    ensures a.maps == b.maps && a.pairs == b.pairs && a.pools == b.pools
  {
    PairsDetermined(ctx, a.pairs, b.pairs);
    SamePools(ctx, a.pairs, a.pools, b.pools);
    MapsDetermined(ctx, EnvOf(a), a.maps, b.maps);
  }

  /** Any two builds from one input emit the same listeners, ports, redirects, path maps and routing
      rules, as lists, and the same pools, whatever the visiting orders. */
  lemma OrderDoesNotMatter(ctx: Context, a: Built, b: Built)
    requires IsBuild(ctx, a) && IsBuild(ctx, b)
    requires RankTellsApart(ctx) && PortNamesDistinct(ctx) && NoSharedPort(ctx, a.configs) && AllResolve(ctx)
    ensures a.listeners == b.listeners && a.ports == b.ports && a.redirects == b.redirects
    ensures a.rules == b.rules && a.pathMaps == b.pathMaps && a.pools == b.pools
  {
    SameFront(ctx, a, b);
    SameRedirectList(ctx, a, b);
    SameBack(ctx, a, b);
    SameRuleLists(ctx, a, b);
  }
}
