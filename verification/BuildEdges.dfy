/**
 Where the guarantees of the greenfield build end, exactly: shared ports, gaps in host
 names and ingresses without rules (pkg/appgw/frontend_listeners.go,
 pkg/appgw/requestroutingrules.go).
 */
module BuildEdges {
  import opened Iteration
  import opened RoutingTypes
  import opened ListenerIds
  import opened IngressListeners
  import opened Backends
  import opened BuildSpec
  import opened BuildListeners
  import opened BuildValidation
  import opened BuildOrder

  /** The host names a listener carries. */
  function HostsOn(l: Listener): seq<string> {
    if l.hostNames.Some? then l.hostNames.value else if l.hostName.Some? then [l.hostName.value] else []
  }

  lemma {:induction false} NonBlankPads(hs: seq<string>, n: nat)
    requires forall i :: 0 <= i < |hs| ==> hs[i] != ""
    ensures NonBlank(hs + Blanks(n)) == hs
  {
    if hs == [] {
      assert hs + Blanks(n) == Blanks(n);
      NonBlankOfBlanks(Blanks(n));
    } else {
      NonBlankPads(hs[1..], n);
      assert (hs + Blanks(n))[1..] == hs[1..] + Blanks(n);
    }
  }

  /** Squeezing blanks out keeps the names. */
  lemma SqueezedNames(id: ListenerId)
    requires |id.hostNames| == MAX_HOSTNAMES
    ensures NonBlank(Squeezed(id).hostNames) == NonBlank(id.hostNames)
  {
    var hosts := NonBlank(id.hostNames);
    NonBlankCompacts(id.hostNames);
    NonBlankPads(hosts, MAX_HOSTNAMES - |hosts|);
    assert Padded(hosts) == hosts + Blanks(MAX_HOSTNAMES - |hosts|);
  }

  /** Listener `k` is HTTPS and has the host names and the frontend IP that `id` asks for. */
  ghost predicate IsHttpsFor(ctx: Context, b: Built, id: ListenerId, k: int) {
    && 0 <= k < |b.listeners| && b.listeners[k].protocol == HTTPS
    && HostsOn(b.listeners[k]) == NonBlank(id.hostNames)
    && FirstIp(ctx.frontendIps, id.privateIp).Some?
    && b.listeners[k].frontendIp == FirstIp(ctx.frontendIps, id.privateIp).value.id
  }

  /** A listener grouped under an HTTPS identifier is one for it. */
  lemma GroupedIsHttps(ctx: Context, b: Built, t: ListenerId) returns (k: int)
    requires Ready(ctx, b.configs) && ListenersPass(ctx, b.configs, b.ids, b.listeners, b.ports)
    requires b.byId == Group(ctx, PortsById(b.ports), b.listeners) && PortIdsClear(ctx) && IpsClear(ctx)
    requires t in b.byId && t.port == HTTPS_PORT
    ensures IsHttpsFor(ctx, b, t, k) && b.byId[t] == b.listeners[k]
  {
    var keys := Recovered(ctx, PortsById(b.ports), b.listeners);
    ZipKeys(keys, b.listeners, t);
    k :| 0 <= k < |keys| && keys[k] == t && Group(ctx, PortsById(b.ports), b.listeners)[t] == b.listeners[k];
    RecoveredIff(ctx, b.configs, b.ids, b.listeners, b.ports, k);
    var id := b.ids[k];
    assert Shape(ctx, id, b.configs[id]);
    SqueezedNames(id);
    assert id.port == t.port && id.privateIp == t.privateIp;
  }

  /** Every redirect attached in a build leads to an emitted HTTPS listener with the host names and the IP
      kind of the HTTP listener it is attached to. */
  lemma RedirectTargetIsHttps(ctx: Context, b: Built, id: ListenerId, ref: Id) returns (k: int)
    requires IsBuild(ctx, b) && PortIdsClear(ctx) && IpsClear(ctx)
    requires id in b.maps && Attached(b.maps[id], ref)
    ensures id.port == HTTP_PORT && IsHttpsFor(ctx, b, id, k) && Redirect(ref, b.listeners[k].name) in b.redirects
  {
    RedirectsLeadToHttps(ctx, b, id, ref);
    k := GroupedIsHttps(ctx, b, HttpsTwin(id));
  }

  /** Without gaps, the listener a redirect leads to is the one made for the HTTPS twin. */
  lemma RedirectTargetIsTwin(ctx: Context, b: Built, id: ListenerId, ref: Id)
    requires IsBuild(ctx, b) && PortIdsClear(ctx) && IpsClear(ctx) && NoGaps(b.ids)
    requires id in b.maps && Attached(b.maps[id], ref)
    ensures HttpsTwin(id) in b.ids && ListenerOf(ctx, b.configs, HttpsTwin(id)).protocol == HTTPS
    ensures Redirect(ref, ListenerName(HttpsTwin(id))) in b.redirects
  {
    RedirectsLeadToHttps(ctx, b, id, ref);
    GroupOf(ctx, b, HttpsTwin(id));
  }

  // ---------------------------------------------------------------- shared ports

  ghost predicate AdmissionDetermined(ctx: Context, configs: map<ListenerId, AzConfig>) {
    forall p, q, id :: Admitted(ctx, configs, p) && Admitted(ctx, configs, q) && id in p ==> id in q
  }

  lemma {:induction false} ListOf<T>(s: set<T>) returns (l: seq<T>)
    ensures Distinct(l) && forall x :: x in l <==> x in s
  {
    if s == {} {
      l := [];
    } else {
      var x :| x in s;
      l := ListOf(s - {x});
      assert x !in l;
      l := l + [x];
    }
  }

  /** With a port shared by public `q` and private `p`, both with `p` and without it is possible. */
  lemma SharedPortLeavesChoice(ctx: Context, configs: map<ListenerId, AzConfig>, p: ListenerId, q: ListenerId)
    returns (all: seq<ListenerId>, most: seq<ListenerId>)
    requires p in configs && q in configs && p.privateIp && !q.privateIp && PortFor(ctx, p).name == PortFor(ctx, q).name
    ensures Admitted(ctx, configs, all) && Admitted(ctx, configs, most) && p in all && p !in most
  {
    all := ListOf(configs.Keys);
    most := ListOf(configs.Keys - {p});
    assert q in most;
    forall i | 0 <= i < |most| ensures most[i] in configs {
      assert most[i] in most;
      assert most[i] in configs.Keys - {p};
    }
    var k :| 0 <= k < |most| && most[k] == q;
    assert Crowded(ctx, most, p);
  }

  /** Which listeners are admitted is independent of the visiting order if and only if no port is
      asked for by both public and private listeners. */
  lemma AdmissionDeterminedIff(ctx: Context, configs: map<ListenerId, AzConfig>)
    ensures AdmissionDetermined(ctx, configs) <==> NoSharedPort(ctx, configs)
  {
    if NoSharedPort(ctx, configs) {
      forall p, q, id | Admitted(ctx, configs, p) && Admitted(ctx, configs, q) && id in p ensures id in q {
        AllAdmitted(ctx, configs, p);
        AllAdmitted(ctx, configs, q);
      }
    } else {
      var p, q :|
        && p in configs && q in configs && p.privateIp && !q.privateIp
        && PortFor(ctx, p).name == PortFor(ctx, q).name;
      var all, most := SharedPortLeavesChoice(ctx, configs, p, q);
    }
  }

  // ---------------------------------------------------------------- a gap in the host names

  /** Among the first five names no blank one comes before a non-blank one. */
  ghost predicate NoBlankBefore(hosts: seq<string>) {
    forall j, k :: 0 <= j < k < |hosts| && k < MAX_HOSTNAMES && hosts[k] != "" ==> hosts[j] != ""
  }

  /** So it is for the host and the extension hosts of every HTTP rule. */
  ghost predicate GaplessHosts(ctx: Context) {
    forall i, r :: HttpRule(ctx, i, r) ==> NoBlankBefore(HostsOf(ctx.ingresses[i], ctx.ingresses[i].rules[r]))
  }

  lemma PaddedGapless(hosts: seq<string>)
    ensures Gapless(Padded(hosts)) <==> NoBlankBefore(hosts)
  {
    var padded := Padded(hosts);
    assert forall k :: 0 <= k < |hosts| && k < MAX_HOSTNAMES ==> padded[k] == hosts[k];
    assert forall k :: |hosts| <= k < MAX_HOSTNAMES ==> padded[k] == "";
  }

  lemma ServedHosts(ctx: Context, i: int, r: int, id: ListenerId)
    requires Serves(ctx, i, r, id)
    ensures HttpRule(ctx, i, r) && id.hostNames == Padded(HostsOf(ctx.ingresses[i], ctx.ingresses[i].rules[r]))
  {
  }

  /** Every HTTP rule asks for some listener. */
  lemma SomeListenerServed(ctx: Context, i: int, r: int) returns (id: ListenerId)
    requires HttpRule(ctx, i, r)
    ensures Serves(ctx, i, r, id)
  {
    var ing := ctx.ingresses[i];
    var rule, privateIp := ing.rules[r], ing.privateIp || ctx.usePrivateIp;
    id := ListenerFor(ing, rule, if CertificateFor(ctx, ing, rule.host).Some? then HTTPS else HTTP, privateIp);
  }

  /** The configured identifiers have no gap exactly when the ingresses' host names have none. */
  lemma GaplessConfigsIff(ctx: Context)
    ensures GaplessConfigs(Configs(ctx)) <==> GaplessHosts(ctx)
  {
    ConfigsAre(ctx);
    if GaplessHosts(ctx) {
      forall id | id in Configs(ctx) ensures Gapless(id.hostNames) {
        if i, r :| Serves(ctx, i, r, id) {
          ServedHosts(ctx, i, r, id);
          PaddedGapless(HostsOf(ctx.ingresses[i], ctx.ingresses[i].rules[r]));
        }
      }
    }
    if GaplessConfigs(Configs(ctx)) {
      forall i, r | HttpRule(ctx, i, r) ensures NoBlankBefore(HostsOf(ctx.ingresses[i], ctx.ingresses[i].rules[r])) {
        var id := SomeListenerServed(ctx, i, r);
        ServedHosts(ctx, i, r, id);
        PaddedGapless(HostsOf(ctx.ingresses[i], ctx.ingresses[i].rules[r]));
      }
    }
  }

  /** Non-blank extension hosts leave no gap. */
  lemma NonBlankHostsLeaveNoGap(ctx: Context)
    requires forall i :: 0 <= i < |ctx.ingresses| ==> "" !in ctx.ingresses[i].extraHosts
    ensures GaplessHosts(ctx)
  {
    forall i, r | HttpRule(ctx, i, r) ensures NoBlankBefore(HostsOf(ctx.ingresses[i], ctx.ingresses[i].rules[r])) {
      var hosts := HostsOf(ctx.ingresses[i], ctx.ingresses[i].rules[r]);
      assert forall k :: 0 <= k < |hosts| ==> hosts[k] != "";
    }
  }

  lemma NoGapsFromConfigs(ctx: Context, configs: map<ListenerId, AzConfig>, ids: seq<ListenerId>)
    requires Admitted(ctx, configs, ids)
    ensures GaplessConfigs(configs) ==> NoGaps(ids)
    ensures NoSharedPort(ctx, configs) && NoGaps(ids) ==> GaplessConfigs(configs)
  {
    if NoSharedPort(ctx, configs) && NoGaps(ids) {
      AllAdmitted(ctx, configs, ids);
      forall id | id in configs ensures Gapless(id.hostNames) {
        assert id in ids;
      }
    }
  }

  /** Every build emits exactly one rule per listener when no HTTP rule has a blank host name before a
      non-blank one among its first five; and only then, unless a listener was left out because its
      port is shared. */
  lemma OneRulePerListenerHosts(ctx: Context, b: Built)
    requires IsBuild(ctx, b) && PortIdsClear(ctx) && IpsClear(ctx)
    ensures GaplessHosts(ctx) ==> OneRulePerListener(b)
    ensures NoSharedPort(ctx, b.configs) ==> (OneRulePerListener(b) <==> GaplessHosts(ctx))
  {
    OneRulePerListenerIff(ctx, b);
    GaplessConfigsIff(ctx);
    NoGapsFromConfigs(ctx, b.configs, b.ids);
  }

  /** An ingress annotated with a blank host between two others yields an identifier with a gap. */
  lemma BlankHostLeavesGap(ing: Ingress, rule: IngressRule, protocol: Protocol, privateIp: bool)
    requires rule.host == "a.com" && ing.extraHosts == ["", "b.com"]
    ensures !Gapless(ListenerFor(ing, rule, protocol, privateIp).hostNames)
  {
    var hosts := HostsOf(ing, rule);
    assert hosts == ["a.com", "", "b.com"];
    var hs := ListenerFor(ing, rule, protocol, privateIp).hostNames;
    assert hs[1] == "" && hs[2] == "b.com";
  }
}
