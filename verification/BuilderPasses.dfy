/**
 The passes of the routing compiler as the controller runs them: loops over slices and
 maps, path maps updated in place. Each meets its specification in BuildSpec for every
 order in which maps are visited.
 */
module BuilderPasses {
  import opened Iteration
  import opened Sorting
  import opened Resources
  import opened RoutingTypes
  import opened ListenerIds
  import opened IngressListeners
  import opened BuildSpec

  // ---------------------------------------------------------------- listener configurations

  /** The hosts of one TLS entry. */
  method PutHosts(before: map<string, SecretId>, hosts: seq<string>, secret: SecretId)
    returns (m: map<string, SecretId>)
    ensures m == before + map host | host in hosts :: secret
  {
    m := before;
    for h := 0 to |hosts|
      invariant m == before + map host | host in hosts[..h] :: secret
    {
      assert hosts[..h + 1] == hosts[..h] + [hosts[h]];
      m := m[hosts[h] := secret];
    }
    assert hosts[..|hosts|] == hosts;
  }

  /** newHostToSecretMap. */
  method NewHostToSecretMap(ctx: Context, ing: Ingress) returns (m: map<string, SecretId>)
    ensures m == HostToSecret(ctx, ing, |ing.tls|)
    ensures HostMap(ctx, ing, |ing.tls|, m)
  {
    HostToSecretIsLastCovering(ctx, ing, |ing.tls|);
    m := map[];
    for n := 0 to |ing.tls|
      invariant m == HostToSecret(ctx, ing, n)
    {
      var tls := ing.tls[n];
      if !Usable(ctx, ing, tls) { continue; }
      var hosts := if |tls.hosts| == 0 then [""] else tls.hosts;
      m := PutHosts(m, hosts, SecretId(ing.ns, tls.secretName));
    }
  }

  /** getListenersFromIngress. */
  method GetListenersFromIngress(ctx: Context, ing: Ingress) returns (listeners: map<ListenerId, AzConfig>)
    ensures listeners == IngressConfigs(ctx, ing)
  {
    listeners := map[];
    ghost var ms := RuleConfigs(ctx, ing);
    for r := 0 to |ing.rules|
      invariant listeners == Overlay(ms[..r])
    {
      OverlaySnoc(ms, r);
      if ing.rules[r].http.None? { continue; }
      var own := ProcessRule(ctx, ing, ing.rules[r]);
      listeners := listeners + own;
    }
    assert ms[..|ms|] == ms;
  }

  /** The default listener's firewall policy: that of the first ingress with one. */
  method FindWaf(ings: seq<Ingress>) returns (policy: string)
    ensures policy == FirstWaf(ings)
  {
    for k := 0 to |ings|
      invariant FirstWaf(ings) == FirstWaf(ings[k..])
    {
      assert ings[k..][1..] == ings[k + 1..];
      if ings[k].wafPolicy.Some? && ings[k].wafPolicy.value != "" {
        return ings[k].wafPolicy.value;
      }
    }
    policy := "";
  }

  /** getListenerConfigs. */
  method GetListenerConfigs(ctx: Context) returns (all: map<ListenerId, AzConfig>)
    ensures all == Configs(ctx)
  {
    all := map[];
    ghost var ms := AllConfigs(ctx);
    for i := 0 to |ctx.ingresses|
      invariant all == Overlay(ms[..i])
    {
      OverlaySnoc(ms, i);
      var ing := ctx.ingresses[i];
      var own := GetListenersFromIngress(ctx, ing);
      var attached := map id | id in own :: AttachWaf(ctx, ing, own[id]);
      all := PutAll(all, attached);
    }
    assert ms[..|ms|] == ms;
    if |all| == 0 {
      var policy := "";
      if ctx.attachWafToListener {
        policy := FindWaf(ctx.ingresses);
      }
      all := map[DefaultListener() := AzConfig(HTTP, None, None, policy)];
    }
  }

  // ---------------------------------------------------------------- listeners and ports

  /** The ports known after making the listeners `ids`, by number. */
  ghost predicate PortTable(ctx: Context, ids: seq<ListenerId>, byNumber: map<int, FrontendPort>) {
    && (forall n :: n in ctx.ports ==> n in byNumber && byNumber[n] == ctx.ports[n])
    && (forall k :: 0 <= k < |ids| ==> ids[k].port in byNumber)
    && (forall n :: n in byNumber && n !in ctx.ports ==>
          byNumber[n] == FrontendPort(PortName(n), PortName(n), n) && exists k :: 0 <= k < |ids| && ids[k].port == n)
  }

  /** newListener: the listener and the port it uses, taken from the table or newly made. */
  method NewListener(ctx: Context, ghost ids: seq<ListenerId>, id: ListenerId, c: AzConfig,
                     byNumber: map<int, FrontendPort>)
    returns (l: Listener, port: FrontendPort)
    requires PortTable(ctx, ids, byNumber) && FirstIp(ctx.frontendIps, id.privateIp).Some?
    requires c.protocol == HTTPS ==> c.secret.Some?
    ensures port == PortFor(ctx, id) && l == MakeListener(ctx, id, c)
  {
    port := if id.port in byNumber then byNumber[id.port]
      else FrontendPort(PortName(id.port), PortName(id.port), id.port);
    var ip := FirstIp(ctx.frontendIps, id.privateIp).value;
    l := Listener(ListenerName(id), ip.id, port.id, c.protocol, None, None, None, None);
    var hosts := GetHostNames(id);
    if |hosts| != 0 {
      if |hosts| == 1 {
        l := l.(hostName := Some(hosts[0]));
      } else {
        l := l.(hostNames := Some(hosts));
      }
    }
    if c.protocol == HTTPS {
      l := l.(cert := Some(CertName(SecretFullName(c.secret.value))));
    }
    if c.firewall != "" {
      l := l.(firewall := Some(c.firewall));
    }
  }

  /** Ports of public listeners so far, by port name. */
  ghost predicate PublicPorts(ctx: Context, ids: seq<ListenerId>, taken: map<Id, Id>) {
    forall n :: n in taken <==> exists k :: 0 <= k < |ids| && !ids[k].privateIp && PortFor(ctx, ids[k]).name == n
  }

  /** Of the first `k` visited identifiers, those not in `ids` are private and crowded out. */
  ghost predicate VisitedSoFar(ctx: Context, order: seq<ListenerId>, k: nat, ids: seq<ListenerId>) {
    && k <= |order| && Distinct(ids)
    && (forall id :: id in ids ==> id in order[..k])
    && (forall id :: id in order[..k] ==> id in ids || Crowded(ctx, ids, id))
  }

  lemma CrowdedStays(ctx: Context, ids: seq<ListenerId>, more: ListenerId, id: ListenerId)
    requires Crowded(ctx, ids, id)
    ensures Crowded(ctx, ids + [more], id)
  {
    var k :| 0 <= k < |ids| && !ids[k].privateIp && PortFor(ctx, ids[k]).name == PortFor(ctx, id).name;
    assert (ids + [more])[k] == ids[k];
  }

  lemma VisitAdmitted(ctx: Context, order: seq<ListenerId>, k: nat, ids: seq<ListenerId>)
    requires k < |order| && Distinct(order) && VisitedSoFar(ctx, order, k, ids)
    ensures VisitedSoFar(ctx, order, k + 1, ids + [order[k]])
  {
    assert order[..k + 1] == order[..k] + [order[k]];
    assert order[k] !in order[..k];
    forall id | id in order[..k] && id !in ids ensures Crowded(ctx, ids + [order[k]], id) {
      CrowdedStays(ctx, ids, order[k], id);
    }
  }

  lemma VisitRejected(ctx: Context, order: seq<ListenerId>, k: nat, ids: seq<ListenerId>)
    requires k < |order| && VisitedSoFar(ctx, order, k, ids) && Crowded(ctx, ids, order[k])
    ensures VisitedSoFar(ctx, order, k + 1, ids)
  {
    assert order[..k + 1] == order[..k] + [order[k]];
  }

  lemma TableGrows(ctx: Context, ids: seq<ListenerId>, byNumber: map<int, FrontendPort>, id: ListenerId)
    requires PortsKeyed(ctx) && PortTable(ctx, ids, byNumber)
    ensures PortFor(ctx, id).number == id.port
    ensures PortTable(ctx, ids + [id], if id.port in byNumber then byNumber else byNumber[id.port := PortFor(ctx, id)])
  {
    var more := ids + [id];
    assert more[|ids|] == id;
    forall n | n in byNumber && n !in ctx.ports ensures exists k :: 0 <= k < |more| && more[k].port == n {
      var k :| 0 <= k < |ids| && ids[k].port == n;
      assert more[k].port == n;
    }
  }

  lemma PublicGrows(ctx: Context, ids: seq<ListenerId>, taken: map<Id, Id>, id: ListenerId, name: Id)
    requires PublicPorts(ctx, ids, taken)
    ensures PublicPorts(ctx, ids + [id], if id.privateIp then taken else taken[PortFor(ctx, id).name := name])
  {
    var more := ids + [id];
    assert more[|ids|] == id;
    forall n | n in taken ensures exists k :: 0 <= k < |more| && !more[k].privateIp && PortFor(ctx, more[k]).name == n {
      var k :| 0 <= k < |ids| && !ids[k].privateIp && PortFor(ctx, ids[k]).name == n;
      assert more[k] == ids[k];
    }
  }

  /** The listeners made for `ids`, where `made` says what is made for each identifier. */
  ghost predicate MadeFor(made: map<ListenerId, Listener>, ids: seq<ListenerId>, listeners: seq<Listener>) {
    |listeners| == |ids| && forall j :: 0 <= j < |ids| ==> ids[j] in made && listeners[j] == made[ids[j]]
  }

  lemma MadeForSnoc(made: map<ListenerId, Listener>, ids: seq<ListenerId>, listeners: seq<Listener>, id: ListenerId)
    requires MadeFor(made, ids, listeners) && id in made
    ensures MadeFor(made, ids + [id], listeners + [made[id]])
  {
  }

  /** The state of getListeners' loop after `k` visits. */
  ghost predicate Progress(ctx: Context, order: seq<ListenerId>, k: nat, ids: seq<ListenerId>,
                           byNumber: map<int, FrontendPort>, taken: map<Id, Id>)
  {
    VisitedSoFar(ctx, order, k, ids) && PortTable(ctx, ids, byNumber) && PublicPorts(ctx, ids, taken)
  }

  lemma AdmitOne(ctx: Context, order: seq<ListenerId>, k: nat, ids: seq<ListenerId>,
                 byNumber: map<int, FrontendPort>, taken: map<Id, Id>)
    requires PortsKeyed(ctx) && Distinct(order) && k < |order| && Progress(ctx, order, k, ids, byNumber, taken)
    ensures PortFor(ctx, order[k]).number == order[k].port
    ensures Progress(ctx, order, k + 1, ids + [order[k]],
                     if order[k].port in byNumber then byNumber else byNumber[order[k].port := PortFor(ctx, order[k])],
                     if order[k].privateIp then taken else taken[PortFor(ctx, order[k]).name := ListenerName(order[k])])
  {
    VisitAdmitted(ctx, order, k, ids);
    PublicGrows(ctx, ids, taken, order[k], ListenerName(order[k]));
    TableGrows(ctx, ids, byNumber, order[k]);
  }

  lemma RejectOne(ctx: Context, order: seq<ListenerId>, k: nat, ids: seq<ListenerId>,
                  byNumber: map<int, FrontendPort>, taken: map<Id, Id>)
    requires k < |order| && Progress(ctx, order, k, ids, byNumber, taken)
    requires order[k].privateIp && PortFor(ctx, order[k]).name in taken
    ensures Progress(ctx, order, k + 1, ids, byNumber, taken)
  {
    VisitRejected(ctx, order, k, ids);
  }

  /** One round of getListeners' loop. */
  method VisitListener(ctx: Context, configs: map<ListenerId, AzConfig>, ghost order: seq<ListenerId>, ghost k: nat,
                       id: ListenerId,
                       ghost before: seq<ListenerId>, byNumber: map<int, FrontendPort>, taken: map<Id, Id>)
    returns (ghost ids: seq<ListenerId>, l: Option<Listener>, byNumber': map<int, FrontendPort>, taken': map<Id, Id>)
    requires PortsKeyed(ctx) && Distinct(order) && k < |order| && order[k] == id && id in configs
    requires FirstIp(ctx.frontendIps, id.privateIp).Some?
    requires (configs[id].protocol == HTTPS ==> configs[id].secret.Some?)
    requires Progress(ctx, order, k, before, byNumber, taken)
    ensures Progress(ctx, order, k + 1, ids, byNumber', taken')
    ensures l.None? ==> ids == before
    ensures l.Some? ==> ids == before + [id] && l.value == MakeListener(ctx, id, configs[id])
  {
    var made, port := NewListener(ctx, before, id, configs[id], byNumber);
    if port.name in taken && id.privateIp {
      RejectOne(ctx, order, k, before, byNumber, taken);
      return before, None, byNumber, taken;
    }
    AdmitOne(ctx, order, k, before, byNumber, taken);
    taken' := if id.privateIp then taken else taken[port.name := made.name];
    byNumber' := if port.number in byNumber then byNumber else byNumber[port.number := port];
    ids, l := before + [id], Some(made);
  }

  /** getListeners' loop over the configurations, in map order. None: a listener finds no frontend IP
      of its kind, which is a nil dereference. */
  method MakeListeners(ctx: Context, configs: map<ListenerId, AzConfig>, ghost made: map<ListenerId, Listener>)
    returns (ghost ids: seq<ListenerId>, ghost order: seq<ListenerId>,
             r: Option<(seq<Listener>, map<int, FrontendPort>)>)
    requires PortsKeyed(ctx)
    requires forall id :: id in configs && configs[id].protocol == HTTPS ==> configs[id].secret.Some?
    requires forall id :: id in configs && FirstIp(ctx.frontendIps, id.privateIp).Some? ==>
      id in made && made[id] == MakeListener(ctx, id, configs[id])
    ensures forall id :: id in order <==> id in configs
    ensures r.Some? <==> IpsReady(ctx, configs)
    ensures r.Some? ==>
      VisitedSoFar(ctx, order, |order|, ids) && PortTable(ctx, ids, r.value.1) && MadeFor(made, ids, r.value.0)
  {
    ids := [];
    var listeners, byNumber := [], ctx.ports;
    var taken: map<Id, Id> := map[];
    var visit := VisitOrder(configs.Keys);
    order := visit;
    for k := 0 to |visit|
      invariant Progress(ctx, visit, k, ids, byNumber, taken) && MadeFor(made, ids, listeners)
      invariant forall j :: 0 <= j < k ==> FirstIp(ctx.frontendIps, visit[j].privateIp).Some?
    {
      var id := visit[k];
      assert id in configs;
      if FirstIp(ctx.frontendIps, id.privateIp).None? { return ids, order, None; }
      ghost var before := ids;
      var l;
      ids, l, byNumber, taken := VisitListener(ctx, configs, visit, k, id, ids, byNumber, taken);
      if l.Some? {
        MadeForSnoc(made, before, listeners, id);
        listeners := listeners + [l.value];
      }
    }
    r := Some((listeners, byNumber));
  }

  /** getListeners' cleanup: the known ports that some listener uses. */
  method UsedPorts(listeners: seq<Listener>, byNumber: map<int, FrontendPort>) returns (ports: seq<FrontendPort>)
    requires forall n :: n in byNumber ==> byNumber[n].number == n
    ensures forall i, j :: 0 <= i < j < |ports| ==> ports[i].number != ports[j].number
    ensures forall p :: p in ports <==>
      p.number in byNumber && byNumber[p.number] == p && exists k :: 0 <= k < |listeners| && listeners[k].port == p.id
  {
    var used: set<Id> := {};
    for k := 0 to |listeners|
      invariant forall x :: x in used <==> exists j :: 0 <= j < k && listeners[j].port == x
    {
      used := used + {listeners[k].port};
    }
    ports := [];
    var order := VisitOrder(byNumber.Keys);
    for k := 0 to |order|
      invariant forall i, j :: 0 <= i < j < |ports| ==> ports[i].number != ports[j].number
      invariant forall p :: p in ports <==>
        p.number in order[..k] && p.number in byNumber && byNumber[p.number] == p && p.id in used
    {
      assert order[k] in byNumber;
      var p := byNumber[order[k]];
      assert p.number == order[k];
      assert order[..k + 1] == order[..k] + [order[k]] && order[k] !in order[..k];
      if p.id in used {
        assert forall i :: 0 <= i < |ports| ==> ports[i] in ports;
        ports := ports + [p];
      }
    }
    assert order[..|order|] == order;
  }

  lemma TableNumbers(ctx: Context, ids: seq<ListenerId>, byNumber: map<int, FrontendPort>)
    requires PortsKeyed(ctx) && PortTable(ctx, ids, byNumber)
    ensures forall n :: n in byNumber ==> byNumber[n].number == n
    ensures forall k :: 0 <= k < |ids| ==> byNumber[ids[k].port] == PortFor(ctx, ids[k])
  {
  }

  lemma TableIsKnown(ctx: Context, ids: seq<ListenerId>, byNumber: map<int, FrontendPort>, p: FrontendPort)
    requires PortsKeyed(ctx) && PortTable(ctx, ids, byNumber)
    ensures p.number in byNumber && byNumber[p.number] == p <==> KnownPort(ctx, ids, p)
  {
    if p.number in byNumber && byNumber[p.number] == p && p.number !in ctx.ports {
      var k :| 0 <= k < |ids| && ids[k].port == p.number;
      assert p == PortFor(ctx, ids[k]);
    }
  }

  lemma AllVisited(ctx: Context, configs: map<ListenerId, AzConfig>, order: seq<ListenerId>, ids: seq<ListenerId>)
    requires VisitedSoFar(ctx, order, |order|, ids) && forall id :: id in order <==> id in configs
    ensures Admitted(ctx, configs, ids)
  {
    assert order[..|order|] == order;
    forall k | 0 <= k < |ids| ensures ids[k] in configs {
      assert ids[k] in ids;
    }
  }

  lemma ListenersAssemble(ctx: Context, configs: map<ListenerId, AzConfig>, made: map<ListenerId, Listener>,
                          ids: seq<ListenerId>, listeners: seq<Listener>, ports: seq<FrontendPort>)
    requires Ready(ctx, configs) && Admitted(ctx, configs, ids) && MadeFor(made, ids, listeners)
    requires forall id :: id in made ==> id in configs && made[id] == ListenerOf(ctx, configs, id)
    requires forall i, j :: 0 <= i < j < |ports| ==> ports[i].number != ports[j].number
    requires forall p :: p in ports <==> KnownPort(ctx, ids, p) && UsesPort(ctx, ids, p.id)
    ensures ListenersPass(ctx, configs, ids, listeners, ports)
  {
  }

  /** Sorting listeners, together with the identifiers they were made for, and ports. */
  lemma ListenersPermuted(ctx: Context, configs: map<ListenerId, AzConfig>, ids: seq<ListenerId>,
                          listeners: seq<Listener>,
                          ports: seq<FrontendPort>, perm: seq<int>, portPerm: seq<int>)
    requires Ready(ctx, configs) && ListenersPass(ctx, configs, ids, listeners, ports)
    requires Permutation(perm, |listeners|) && Permutation(portPerm, |ports|)
    ensures ListenersPass(ctx, configs, Permuted(ids, perm), Permuted(listeners, perm), Permuted(ports, portPerm))
  {
    var ids' := Permuted(ids, perm);
    PermutedIs(ids, perm);
    PermutedIs(ports, portPerm);
    AdmittedSame(ctx, configs, ids, ids');
    forall p ensures KnownPort(ctx, ids, p) <==> KnownPort(ctx, ids', p) {
      KnownPortSame(ctx, ids, ids', p);
      KnownPortSame(ctx, ids', ids, p);
    }
    forall n ensures UsesPort(ctx, ids, n) <==> UsesPort(ctx, ids', n) {
      UsesPortSame(ctx, ids, ids', n);
      UsesPortSame(ctx, ids', ids, n);
    }
    assert forall k :: 0 <= k < |portPerm| ==> portPerm[k] in portPerm;
    PermutedPorts(ports, portPerm);
    PermutedListeners(ctx, configs, ids, listeners, perm);
  }

  lemma PermutedListeners(ctx: Context, configs: map<ListenerId, AzConfig>, ids: seq<ListenerId>,
                          listeners: seq<Listener>, perm: seq<int>)
    requires Ready(ctx, configs) && |ids| == |listeners| && (forall k :: 0 <= k < |ids| ==> ids[k] in configs)
    requires forall k :: 0 <= k < |ids| ==> listeners[k] == ListenerOf(ctx, configs, ids[k])
    requires Permutation(perm, |listeners|)
    ensures forall k :: 0 <= k < |ids| ==>
      && Permuted(ids, perm)[k] in configs
      && Permuted(listeners, perm)[k] == ListenerOf(ctx, configs, Permuted(ids, perm)[k])
  {
  }

  lemma PermutedPorts(ports: seq<FrontendPort>, perm: seq<int>)
    requires Permutation(perm, |ports|) && forall i, j :: 0 <= i < j < |ports| ==> ports[i].number != ports[j].number
    ensures forall i, j :: 0 <= i < j < |ports| ==> Permuted(ports, perm)[i].number != Permuted(ports, perm)[j].number
  {
    forall i, j | 0 <= i < j < |ports| ensures Permuted(ports, perm)[i].number != Permuted(ports, perm)[j].number {
      assert perm[i] in perm && perm[j] in perm && perm[i] != perm[j];
    }
  }

  lemma CrowdedSame(ctx: Context, ids: seq<ListenerId>, ids': seq<ListenerId>, id: ListenerId)
    requires (forall x :: x in ids ==> x in ids') && Crowded(ctx, ids, id)
    ensures Crowded(ctx, ids', id)
  {
    var k :| 0 <= k < |ids| && !ids[k].privateIp && PortFor(ctx, ids[k]).name == PortFor(ctx, id).name;
    assert ids[k] in ids;
    var j :| 0 <= j < |ids'| && ids'[j] == ids[k];
  }

  lemma AdmittedSame(ctx: Context, configs: map<ListenerId, AzConfig>, ids: seq<ListenerId>, ids': seq<ListenerId>)
    requires Admitted(ctx, configs, ids) && Distinct(ids') && forall x :: x in ids <==> x in ids'
    ensures Admitted(ctx, configs, ids')
  {
    forall id | id in configs && id !in ids' ensures Crowded(ctx, ids', id) {
      CrowdedSame(ctx, ids, ids', id);
    }
    forall k | 0 <= k < |ids'| ensures ids'[k] in configs {
      assert ids'[k] in ids' && ids'[k] in ids;
    }
  }

  /** getListeners without the memo. */
  method ComputeListeners(ctx: Context, configs: map<ListenerId, AzConfig>)
    returns (ghost ids: seq<ListenerId>, r: Option<(seq<Listener>, seq<FrontendPort>)>)
    requires Shaped(ctx, configs)
    ensures r.Some? <==> IpsReady(ctx, configs)
    ensures r.Some? ==> ListenersPass(ctx, configs, ids, r.value.0, r.value.1)
    ensures r.Some? ==> Sorted(r.value.0, ListenerRank(ctx)) && Sorted(r.value.1, PortRank(ctx))
  {
    var made;
    ids, made := ListenersInMapOrder(ctx, configs);
    if made.None? { return ids, None; }
    var listeners, perm := SortBy(made.value.0, ListenerRank(ctx));
    var ports, portPerm := SortBy(made.value.1, PortRank(ctx));
    ListenersPermuted(ctx, configs, ids, made.value.0, made.value.1, perm, portPerm);
    return Permuted(ids, perm), Some((listeners, ports));
  }

  /** The same before sorting. */
  method ListenersInMapOrder(ctx: Context, configs: map<ListenerId, AzConfig>)
    returns (ghost ids: seq<ListenerId>, r: Option<(seq<Listener>, seq<FrontendPort>)>)
    requires Shaped(ctx, configs)
    ensures r.Some? <==> IpsReady(ctx, configs)
    ensures r.Some? ==> ListenersPass(ctx, configs, ids, r.value.0, r.value.1)
  {
    ghost var made := map id | id in configs && FirstIp(ctx.frontendIps, id.privateIp).Some? ::
      MakeListener(ctx, id, configs[id]);
    ghost var order;
    var found;
    ids, order, found := MakeListeners(ctx, configs, made);
    if found.None? { return ids, None; }
    var listeners, byNumber := found.value.0, found.value.1;
    TableNumbers(ctx, ids, byNumber);
    var ports := UsedPorts(listeners, byNumber);
    AllVisited(ctx, configs, order, ids);
    PortsFollow(ctx, ids, made, listeners, byNumber, ports);
    ListenersAssemble(ctx, configs, made, ids, listeners, ports);
    return ids, Some((listeners, ports));
  }

  lemma PortsFollow(ctx: Context, ids: seq<ListenerId>, made: map<ListenerId, Listener>, listeners: seq<Listener>,
                    byNumber: map<int, FrontendPort>, ports: seq<FrontendPort>)
    requires PortsKeyed(ctx) && PortTable(ctx, ids, byNumber) && MadeFor(made, ids, listeners)
    requires forall id :: id in made ==> made[id].port == PortFor(ctx, id).id
    requires forall p :: p in ports <==>
      p.number in byNumber && byNumber[p.number] == p && exists k :: 0 <= k < |listeners| && listeners[k].port == p.id
    ensures forall p :: p in ports <==> KnownPort(ctx, ids, p) && UsesPort(ctx, ids, p.id)
  {
    assert forall k :: 0 <= k < |ids| ==> listeners[k].port == PortFor(ctx, ids[k]).id;
    forall p ensures p in ports <==> KnownPort(ctx, ids, p) && UsesPort(ctx, ids, p.id) {
      TableIsKnown(ctx, ids, byNumber, p);
    }
  }

  // ---------------------------------------------------------------- grouping and redirects

  /** groupListenersByListenerIdentifier. */
  method GroupListeners(ctx: Context, listeners: seq<Listener>, ports: seq<FrontendPort>)
    returns (byId: map<ListenerId, Listener>)
    ensures byId == Group(ctx, PortsById(ports), listeners)
  {
    ghost var portKeys := seq(|ports|, k requires 0 <= k < |ports| => ports[k].id);
    var byPort: map<Id, FrontendPort> := map[];
    for k := 0 to |ports|
      invariant byPort == Zip(portKeys[..k], ports[..k])
    {
      ZipSnoc(portKeys, ports, k);
      byPort := byPort[ports[k].id := ports[k]];
    }
    assert portKeys[..|ports|] == portKeys && ports[..|ports|] == ports;
    ghost var keys := Recovered(ctx, byPort, listeners);
    byId := map[];
    for k := 0 to |listeners|
      invariant byId == Zip(keys[..k], listeners[..k])
    {
      ZipSnoc(keys, listeners, k);
      byId := byId[Recover(ctx, byPort, listeners[k]) := listeners[k]];
    }
    assert keys[..|listeners|] == keys && listeners[..|listeners|] == listeners;
  }

  /** The redirects in map order. */
  method RedirectsInMapOrder(configs: map<ListenerId, AzConfig>, byId: map<ListenerId, Listener>)
    returns (ghost targets: seq<ListenerId>, redirects: seq<Redirect>)
    ensures RedirectsPass(configs, byId, targets, redirects)
  {
    targets, redirects := [], [];
    var order := VisitOrder(configs.Keys);
    for k := 0 to |order|
      invariant Distinct(targets)
      invariant (forall id :: id in targets <==> id in order[..k] && GetsRedirect(configs, byId, id))
      invariant |redirects| == |targets|
      invariant forall j :: 0 <= j < |targets| ==>
        targets[j] in targets && redirects[j] == Redirect(configs[targets[j]].redirect.value, byId[targets[j]].name)
    {
      var id := order[k];
      assert id in configs && id !in order[..k] && order[..k + 1] == order[..k] + [id];
      if id !in byId { continue; }
      if configs[id].protocol == HTTPS && configs[id].redirect.Some? {
        assert id !in targets;
        redirects := redirects + [Redirect(configs[id].redirect.value, byId[id].name)];
        targets := targets + [id];
      }
    }
    assert order[..|order|] == order;
  }

  lemma RedirectsPermuted(configs: map<ListenerId, AzConfig>, byId: map<ListenerId, Listener>,
                          targets: seq<ListenerId>, redirects: seq<Redirect>, perm: seq<int>)
    requires RedirectsPass(configs, byId, targets, redirects) && Permutation(perm, |redirects|)
    ensures RedirectsPass(configs, byId, Permuted(targets, perm), Permuted(redirects, perm))
  {
    PermutedIs(targets, perm);
  }

  /** getRedirectConfigurations without the memo. */
  method ComputeRedirects(ctx: Context, configs: map<ListenerId, AzConfig>, byId: map<ListenerId, Listener>)
    returns (ghost targets: seq<ListenerId>, redirects: seq<Redirect>)
    ensures RedirectsPass(configs, byId, targets, redirects) && Sorted(redirects, RedirectRank(ctx))
  {
    var found;
    targets, found := RedirectsInMapOrder(configs, byId);
    ghost var perm;
    redirects, perm := SortBy(found, RedirectRank(ctx));
    RedirectsPermuted(configs, byId, targets, found, perm);
    targets := Permuted(targets, perm);
  }

  /** The certificates of all ingresses. */
  method GetCerts(ctx: Context) returns (certs: set<Id>)
    ensures CertsPass(ctx, certs)
  {
    certs := {};
    for i := 0 to |ctx.ingresses|
      invariant forall c :: c in certs <==>
        exists j, s :: 0 <= j < i && s in SecretsWithCert(ctx, ctx.ingresses[j]) && c == CertName(SecretFullName(s))
    {
      var own := SecretsWithCert(ctx, ctx.ingresses[i]);
      certs := certs + set s | s in own :: CertName(SecretFullName(s));
    }
  }
}
