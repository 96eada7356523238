/**
 Listeners, ports and rules of a greenfield build match up
 (pkg/appgw/frontend_listeners.go, getRules of pkg/appgw/requestroutingrules.go).
 */
module BuildListeners {
  import opened Iteration
  import opened Resources
  import opened RoutingTypes
  import opened ListenerIds
  import opened PathMaps
  import opened BuildSpec

  // ---------------------------------------------------------------- ports

  /** Existing ports have IDs of their own, and none has the ID generated for another number. */
  ghost predicate PortIdsClear(ctx: Context) {
    && PortsKeyed(ctx)
    && (forall m, n :: m in ctx.ports && n in ctx.ports && ctx.ports[m].id == ctx.ports[n].id ==> m == n)
    && (forall m, n :: m in ctx.ports && ctx.ports[m].id == PortName(n) ==> m == n)
  }

  lemma KnownPortById(ctx: Context, ids: seq<ListenerId>, p: FrontendPort, id: ListenerId)
    requires PortIdsClear(ctx) && KnownPort(ctx, ids, p) && p.id == PortFor(ctx, id).id
    ensures p == PortFor(ctx, id)
  {
  }

  lemma PortsByIdFinds(ports: seq<FrontendPort>, p: FrontendPort)
    requires p in ports && forall q :: q in ports && q.id == p.id ==> q == p
    ensures p.id in PortsById(ports) && PortsById(ports)[p.id] == p
  {
    var keys := seq(|ports|, k requires 0 <= k < |ports| => ports[k].id);
    var k :| 0 <= k < |ports| && ports[k] == p;
    assert keys[k] == p.id;
    ZipKeys(keys, ports, p.id);
  }

  /** A listener's port is among the emitted ones and leads back to the number in its identifier. */
  lemma ListenerPort(ctx: Context, configs: map<ListenerId, AzConfig>, ids: seq<ListenerId>,
                     listeners: seq<Listener>, ports: seq<FrontendPort>, k: nat)
    requires Ready(ctx, configs) && ListenersPass(ctx, configs, ids, listeners, ports) && PortIdsClear(ctx) && k < |ids|
    ensures PortFor(ctx, ids[k]) in ports
    ensures listeners[k].port in PortsById(ports) && PortsById(ports)[listeners[k].port].number == ids[k].port
  {
    var p := PortFor(ctx, ids[k]);
    assert KnownPort(ctx, ids, p) && UsesPort(ctx, ids, p.id);
    forall q | q in ports && q.id == p.id ensures q == p {
      KnownPortById(ctx, ids, q, ids[k]);
    }
    PortsByIdFinds(ports, p);
  }

  /** The emitted ports are exactly those the listeners use, one per number and ID, and a
      listener's port reference leads back to the number in its identifier. */
  lemma PortsAreExact(ctx: Context, configs: map<ListenerId, AzConfig>, ids: seq<ListenerId>,
                      listeners: seq<Listener>, ports: seq<FrontendPort>)
    requires Ready(ctx, configs) && ListenersPass(ctx, configs, ids, listeners, ports) && PortIdsClear(ctx)
    ensures forall p :: p in ports <==> exists k :: 0 <= k < |ids| && p == PortFor(ctx, ids[k])
    ensures forall i, j :: 0 <= i < j < |ports| ==> ports[i].number != ports[j].number && ports[i].id != ports[j].id
    ensures forall k :: 0 <= k < |ids| ==>
      listeners[k].port in PortsById(ports) && PortsById(ports)[listeners[k].port].number == ids[k].port
  {
    forall p | p in ports ensures exists k :: 0 <= k < |ids| && p == PortFor(ctx, ids[k]) {
      assert UsesPort(ctx, ids, p.id);
      var k :| 0 <= k < |ids| && PortFor(ctx, ids[k]).id == p.id;
      KnownPortById(ctx, ids, p, ids[k]);
    }
    forall k | 0 <= k < |ids|
      ensures PortFor(ctx, ids[k]) in ports
      ensures listeners[k].port in PortsById(ports) && PortsById(ports)[listeners[k].port].number == ids[k].port
    {
      ListenerPort(ctx, configs, ids, listeners, ports, k);
    }
    forall i, j | 0 <= i < j < |ports| ensures ports[i].id != ports[j].id {
      assert ports[i] in ports && ports[j] in ports;
      var k :| 0 <= k < |ids| && ports[i] == PortFor(ctx, ids[k]);
      if ports[j].id == ports[i].id {
        KnownPortById(ctx, ids, ports[j], ids[k]);
      }
    }
  }

  // ---------------------------------------------------------------- identifiers recovered

  /** Frontend IPs have IDs of their own and none is both public and private. */
  ghost predicate IpsClear(ctx: Context) {
    && (forall i, j :: 0 <= i < j < |ctx.frontendIps| ==> ctx.frontendIps[i].id != ctx.frontendIps[j].id)
    && (forall ip :: ip in ctx.frontendIps ==> !(ip.hasPrivate && ip.hasPublic))
  }

  lemma {:induction false} IpByIdFinds(ips: seq<FrontendIp>, ip: FrontendIp)
    requires ip in ips && forall i, j :: 0 <= i < j < |ips| ==> ips[i].id != ips[j].id
    ensures IpById(ips, ip.id) == Some(ip)
  {
    if ips[0] != ip {
      var k :| 0 <= k < |ips| && ips[k] == ip;
      assert ips[1..][k - 1] == ip;
      IpByIdFinds(ips[1..], ip);
    }
  }

  /** The identifier with the blank host names squeezed out. */
  function Squeezed(id: ListenerId): ListenerId {
    WithHosts(Bare(id.port, id.privateIp), NonBlank(id.hostNames))
  }

  lemma RecoverIsSqueezed(ctx: Context, id: ListenerId, c: AzConfig, byPort: map<Id, FrontendPort>)
    requires FirstIp(ctx.frontendIps, id.privateIp).Some? && (c.protocol == HTTPS ==> c.secret.Some?)
    requires IpsClear(ctx)
    requires PortFor(ctx, id).id in byPort && byPort[PortFor(ctx, id).id].number == id.port
    ensures Recover(ctx, byPort, MakeListener(ctx, id, c)) == Squeezed(id)
  {
    var l, hosts := MakeListener(ctx, id, c), NonBlank(id.hostNames);
    IpByIdFinds(ctx.frontendIps, FirstIp(ctx.frontendIps, id.privateIp).value);
    var seen := if l.hostNames.Some? then l.hostNames.value else if l.hostName.Some? then [l.hostName.value] else [];
    assert seen == hosts;
  }

  /** A listener identifier is recovered from its listener exactly when its host names have no gap. */
  lemma RecoveredIff(ctx: Context, configs: map<ListenerId, AzConfig>, ids: seq<ListenerId>,
                     listeners: seq<Listener>, ports: seq<FrontendPort>, k: nat)
    requires Ready(ctx, configs) && ListenersPass(ctx, configs, ids, listeners, ports)
    requires PortIdsClear(ctx) && IpsClear(ctx) && k < |ids|
    ensures Recover(ctx, PortsById(ports), listeners[k]) == Squeezed(ids[k])
    ensures Recover(ctx, PortsById(ports), listeners[k]) == ids[k] <==> Gapless(ids[k].hostNames)
  {
    ListenerPort(ctx, configs, ids, listeners, ports, k);
    RecoverIsSqueezed(ctx, ids[k], configs[ids[k]], PortsById(ports));
    HostsRecoveredIff(ids[k]);
  }

  ghost predicate NoGaps(ids: seq<ListenerId>) {
    forall k :: 0 <= k < |ids| ==> Gapless(ids[k].hostNames)
  }

  /** Without gaps, grouping the listeners gives back the identifiers they were made from. */
  lemma GroupedByOwnId(ctx: Context, configs: map<ListenerId, AzConfig>, ids: seq<ListenerId>,
                       listeners: seq<Listener>, ports: seq<FrontendPort>)
    requires Ready(ctx, configs) && ListenersPass(ctx, configs, ids, listeners, ports)
    requires PortIdsClear(ctx) && IpsClear(ctx) && NoGaps(ids)
    ensures var byId := Group(ctx, PortsById(ports), listeners);
      && (forall id :: id in byId <==> id in ids)
      && (forall k :: 0 <= k < |ids| ==> byId[ids[k]] == listeners[k])
  {
    var keys := Recovered(ctx, PortsById(ports), listeners);
    forall k | 0 <= k < |ids| ensures keys[k] == ids[k] {
      RecoveredIff(ctx, configs, ids, listeners, ports, k);
    }
    assert keys == ids;
    forall id { ZipKeys(keys, listeners, id); }
  }

  lemma GroupOf(ctx: Context, b: Built, id: ListenerId)
    requires Ready(ctx, b.configs) && ListenersPass(ctx, b.configs, b.ids, b.listeners, b.ports)
    requires b.byId == Group(ctx, PortsById(b.ports), b.listeners)
    requires PortIdsClear(ctx) && IpsClear(ctx) && NoGaps(b.ids)
    ensures id in b.byId <==> id in b.ids
    ensures id in b.ids ==> id in b.configs && b.byId[id] == ListenerOf(ctx, b.configs, id)
  {
    GroupedByOwnId(ctx, b.configs, b.ids, b.listeners, b.ports);
    if id in b.ids {
      var k :| 0 <= k < |b.ids| && b.ids[k] == id;
    }
  }

  // ---------------------------------------------------------------- one rule per listener

  lemma SqueezedIsGapless(id: ListenerId)
    ensures Gapless(Squeezed(id).hostNames)
  {
    NonBlankCompacts(id.hostNames);
  }

  /** Rule `j` is made from the path map of listener `k` and bound to it. */
  ghost predicate Bound(b: Built, j: nat, k: nat) {
    && j < |b.rules| && k < |b.ids| == |b.listeners|
    && b.ids[k] in b.maps && b.rules[j] == RuleFor(b.ids[k], b.maps[b.ids[k]], b.listeners[k])
  }

  ghost predicate HasOwnRule(b: Built, k: nat) {
    exists j :: Bound(b, j, k)
  }

  ghost predicate HasOwnListener(b: Built, j: nat) {
    exists k :: Bound(b, j, k)
  }

  /** Every listener has exactly one rule: the one made from its own path map; and there are no
      other rules. */
  ghost predicate OneRulePerListener(b: Built) {
    && |b.rules| == |b.listeners|
    && (forall k :: 0 <= k < |b.listeners| ==> HasOwnRule(b, k))
    && (forall j :: 0 <= j < |b.rules| ==> HasOwnListener(b, j))
  }

  lemma RulesMatchListeners(b: Built)
    requires |b.ids| == |b.listeners| && Distinct(b.ids)
    requires RulesPass(b.maps, b.byId, b.ruleIds, b.rules, b.pathIds, b.pathMaps)
    requires forall id :: id in b.byId <==> id in b.ids
    requires forall k :: 0 <= k < |b.ids| ==> b.ids[k] in b.maps && b.byId[b.ids[k]] == b.listeners[k]
    ensures OneRulePerListener(b)
  {
    forall id ensures id in b.ruleIds <==> id in b.ids {
      if id in b.ids {
        var k :| 0 <= k < |b.ids| && b.ids[k] == id;
      }
    }
    SameElementsSameLength(b.ruleIds, b.ids);
    forall k | 0 <= k < |b.listeners| ensures HasOwnRule(b, k) {
      assert b.ids[k] in b.ids;
      var j :| 0 <= j < |b.ruleIds| && b.ruleIds[j] == b.ids[k];
      assert Bound(b, j, k);
    }
    forall j | 0 <= j < |b.rules| ensures HasOwnListener(b, j) {
      assert b.ruleIds[j] in b.ids;
      var k :| 0 <= k < |b.ids| && b.ids[k] == b.ruleIds[j];
      assert Bound(b, j, k);
    }
  }

  /** Only identifiers without a gap are found among the grouped listeners. */
  lemma GroupedIsGapless(ctx: Context, configs: map<ListenerId, AzConfig>, ids: seq<ListenerId>,
                         listeners: seq<Listener>, ports: seq<FrontendPort>, id: ListenerId)
    requires Ready(ctx, configs) && ListenersPass(ctx, configs, ids, listeners, ports) && PortIdsClear(ctx)
    requires IpsClear(ctx)
    requires id in Group(ctx, PortsById(ports), listeners)
    ensures Gapless(id.hostNames)
  {
    var keys := Recovered(ctx, PortsById(ports), listeners);
    ZipKeys(keys, listeners, id);
    var j :| 0 <= j < |keys| && keys[j] == id;
    RecoveredIff(ctx, configs, ids, listeners, ports, j);
    SqueezedIsGapless(ids[j]);
  }

  lemma OwnRuleIsGrouped(b: Built, k: nat)
    requires RulesPass(b.maps, b.byId, b.ruleIds, b.rules, b.pathIds, b.pathMaps) && HasOwnRule(b, k)
    ensures k < |b.ids| && b.ids[k] in b.byId
  {
    var j: nat :| Bound(b, j, k);
    assert b.rules[j].name == RuleName(b.ids[k]);
    assert b.ruleIds[j] in b.ruleIds;
  }

  lemma OwnRuleIsGapless(ctx: Context, b: Built, k: nat)
    requires Ready(ctx, b.configs) && ListenersPass(ctx, b.configs, b.ids, b.listeners, b.ports)
    requires PortIdsClear(ctx) && IpsClear(ctx)
    requires b.byId == Group(ctx, PortsById(b.ports), b.listeners)
    requires RulesPass(b.maps, b.byId, b.ruleIds, b.rules, b.pathIds, b.pathMaps)
    requires HasOwnRule(b, k)
    ensures Gapless(b.ids[k].hostNames)
  {
    OwnRuleIsGrouped(b, k);
    GroupedIsGapless(ctx, b.configs, b.ids, b.listeners, b.ports, b.ids[k]);
  }

  lemma NoGapsMeansOneRuleEach(ctx: Context, b: Built)
    requires IsBuild(ctx, b) && PortIdsClear(ctx) && IpsClear(ctx) && NoGaps(b.ids)
    ensures OneRulePerListener(b)
  {
    GroupedByOwnId(ctx, b.configs, b.ids, b.listeners, b.ports);
    forall k | 0 <= k < |b.ids| ensures b.ids[k] in b.maps {
      MapsCoverConfigs(ctx, EnvOf(b), b.maps, b.ids[k]);
    }
    RulesMatchListeners(b);
  }

  /** Exactly one routing rule per listener, in any visiting order, if and only if no emitted
      identifier has a gap in its host names. */
  lemma OneRulePerListenerIff(ctx: Context, b: Built)
    requires IsBuild(ctx, b) && PortIdsClear(ctx) && IpsClear(ctx)
    ensures OneRulePerListener(b) <==> NoGaps(b.ids)
  {
    if NoGaps(b.ids) {
      NoGapsMeansOneRuleEach(ctx, b);
    }
    if OneRulePerListener(b) {
      forall k | 0 <= k < |b.ids| ensures Gapless(b.ids[k].hostNames) {
        OwnRuleIsGapless(ctx, b, k);
      }
    }
  }
}
