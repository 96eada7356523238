/**
 The listeners, redirects, pools, settings, probes and certificates of a build, in the words of the
 ingresses (pkg/appgw/frontend_listeners.go, pkg/appgw/redirects.go, pkg/appgw/backendaddresspools.go,
 pkg/appgw/backendhttpsettings.go, pkg/appgw/health_probes.go, pkg/appgw/certificates.go).
 */
module BuildResources {
  import opened Iteration
  import opened Resources
  import opened RoutingTypes
  import opened ListenerIds
  import opened IngressListeners
  import opened RequestedListeners
  import opened Backends
  import opened PathMaps
  import opened BuildSpec
  import opened BuildListeners
  import opened BuildEdges
  import opened BuildDangling
  import opened BuildRoutes
  import opened BuildDefaults

  // ---------------------------------------------------------------- listeners

  ghost function NameOptions(hs: seq<string>): (os: seq<Option<string>>)
    ensures |os| == |hs| && forall k :: 0 <= k < |hs| ==> os[k] == if hs[k] == "" then None else Some(hs[k])
  {
    seq(|hs|, k requires 0 <= k < |hs| => if hs[k] == "" then None else Some(hs[k]))
  }

  /** `names` are the names in `hs` that are not blank, in order. */
  ghost predicate NamesIn(hs: seq<string>, names: seq<string>) {
    exists ks :: Sifted(NameOptions(hs), -1, ks, names)
  }

  lemma {:induction false} NonBlankNames(hs: seq<string>)
    ensures NamesIn(hs, NonBlank(hs))
  {
    if hs == [] {
      assert Sifted(NameOptions(hs), -1, [], []);
    } else {
      var n := |hs| - 1;
      var front := hs[..n];
      NonBlankNames(front);
      var ks :| Sifted(NameOptions(front), -1, ks, NonBlank(front));
      var last := if hs[n] == "" then None else Some(hs[n]);
      SiftedSnoc(NameOptions(front), last, -1, ks, NonBlank(front));
      assert NameOptions(hs) == NameOptions(front) + [last];
      NonBlankSnoc(front, hs[n]);
      assert hs == front + [hs[n]];
      assert Sifted(NameOptions(hs), -1, if last.Some? then ks + [n] else ks, NonBlank(hs));
    }
  }

  /** One name stands alone, several in the multi-host field. */
  ghost predicate CarriesHosts(l: Listener, hs: seq<string>) {
    exists names ::
      && NamesIn(hs, names)
      && l.hostName == (if |names| == 1 then Some(names[0]) else None)
      && l.hostNames == (if |names| > 1 then Some(names) else None)
  }

  /** Frontend IP `j` is the first that is private, or public. */
  ghost predicate FirstIpAt(ips: seq<FrontendIp>, privateIp: bool, j: int) {
    && 0 <= j < |ips| && ips[j].hasProps && (if privateIp then ips[j].hasPrivate else ips[j].hasPublic)
    && forall i :: 0 <= i < j ==> !(ips[i].hasProps && if privateIp then ips[i].hasPrivate else ips[i].hasPublic)
  }

  lemma {:induction false} FirstIpIs(ips: seq<FrontendIp>, privateIp: bool) returns (j: int)
    requires FirstIp(ips, privateIp).Some?
    ensures FirstIpAt(ips, privateIp, j) && ips[j] == FirstIp(ips, privateIp).value
  {
    if IpMatches(ips[0], privateIp) {
      j := 0;
    } else {
      var i := FirstIpIs(ips[1..], privateIp);
      j := i + 1;
      assert forall k :: 0 < k < |ips| ==> ips[k] == ips[1..][k - 1];
    }
  }

  /** The certificate is that of the TLS entry of the last rule to ask for the listener. */
  ghost predicate CarriesCert(ctx: Context, id: ListenerId, cert: Option<Id>) {
    if id.port == 443 then
      exists i: nat, r: nat, k: nat ::
        && LastToAsk(ctx, i, r, id) && CertEntry(ctx, ctx.ingresses[i], ctx.ingresses[i].rules[r], k)
        && cert == Some(CertName(ctx.ingresses[i].ns + "-" + ctx.ingresses[i].tls[k].secretName))
    else cert.None?
  }

  /** The firewall policy is that of the ingress of the last rule to ask for the listener. */
  ghost predicate CarriesPolicy(ctx: Context, id: ListenerId, firewall: Option<string>) {
    exists i: nat, r: nat ::
      && LastToAsk(ctx, i, r, id)
      && var policy := ctx.ingresses[i].wafPolicy;
         firewall == if ctx.attachWafToListener && policy.Some? && policy.value != "" then policy else None
  }

  lemma MadeCarries(ctx: Context, id: ListenerId, i: int, r: int, c: AzConfig)
    requires LastToAsk(ctx, i, r, id) && ConfiguredBy(ctx, i, r, id, c) && FirstIp(ctx.frontendIps, id.privateIp).Some?
    requires c.protocol == HTTPS ==> c.secret.Some?
    ensures var l := MakeListener(ctx, id, c);
      CarriesCert(ctx, id, l.cert) && CarriesPolicy(ctx, id, l.firewall)
  {
    var ing, rule := ctx.ingresses[i], ctx.ingresses[i].rules[r];
    if id.port == 443 {
      var k :| CertEntry(ctx, ing, rule, k) && c.secret == Some(SecretId(ing.ns, ing.tls[k].secretName));
      var e: nat := k;
      assert CertEntry(ctx, ing, rule, e);
      assert SecretFullName(c.secret.value) == ing.ns + "-" + ing.tls[e].secretName;
    }
  }

  /** The listener made for an identifier: port, address, protocol and host names are the identifier's. */
  ghost predicate ListenerFits(ctx: Context, ports: seq<FrontendPort>, id: ListenerId, l: Listener) {
    && l.name == ListenerName(id)
    && l.protocol == (if id.port == 443 then HTTPS else HTTP)
    && (exists p :: p in ports && p.id == l.port && p.number == id.port)
    && (exists j :: FirstIpAt(ctx.frontendIps, id.privateIp, j) && l.frontendIp == ctx.frontendIps[j].id)
    && CarriesHosts(l, id.hostNames)
  }

  lemma MadeFits(ctx: Context, ports: seq<FrontendPort>, id: ListenerId, c: AzConfig)
    requires FirstIp(ctx.frontendIps, id.privateIp).Some? && Shape(ctx, id, c)
    requires PortFor(ctx, id) in ports && PortFor(ctx, id).number == id.port
    ensures ListenerFits(ctx, ports, id, MakeListener(ctx, id, c))
  {
    NonBlankNames(id.hostNames);
    var j := FirstIpIs(ctx.frontendIps, id.privateIp);
  }

  /** Every emitted listener: which identifier it is for, and with what. */
  lemma ListenersAreWritten(ctx: Context, b: Built, k: nat)
    requires IsBuild(ctx, b) && k < |b.listeners|
    ensures var id := b.ids[k];
      && ListenerFits(ctx, b.ports, id, b.listeners[k])
      && (AskedFor(ctx, id) ==>
            CarriesCert(ctx, id, b.listeners[k].cert) && CarriesPolicy(ctx, id, b.listeners[k].firewall))
  {
    var id := b.ids[k];
    var p := PortFor(ctx, id);
    assert KnownPort(ctx, b.ids, p) && UsesPort(ctx, b.ids, p.id);
    assert Shape(ctx, id, b.configs[id]);
    MadeFits(ctx, b.ports, id, b.configs[id]);
    if AskedFor(ctx, id) {
      var i, r := ConfigIsLastAsked(ctx, id);
      MadeCarries(ctx, id, i, r, b.configs[id]);
    }
  }

  /** Every public listener asked for is emitted, and a private one unless a public one has its port. */
  lemma AskedIsEmitted(ctx: Context, b: Built, id: ListenerId)
    requires IsBuild(ctx, b) && AskedFor(ctx, id)
    ensures id in b.ids || (id.privateIp && exists k :: 0 <= k < |b.ids| && !b.ids[k].privateIp
                                                        && PortFor(ctx, b.ids[k]).name == PortFor(ctx, id).name)
  {
    var i, r := ConfigIsLastAsked(ctx, id);
  }

  // ---------------------------------------------------------------- redirects

  /** The last rule to ask for the listener belongs to an ingress with ssl-redirect. */
  ghost predicate LastAskerRedirects(ctx: Context, t: ListenerId) {
    exists i: nat, r: nat :: LastToAsk(ctx, i, r, t) && ctx.ingresses[i].sslRedirect
  }

  lemma RedirectConfigured(ctx: Context, t: ListenerId)
    ensures t in Configs(ctx) && Configs(ctx)[t].redirect.Some? <==> t.port == 443 && LastAskerRedirects(ctx, t)
  {
    if AskedFor(ctx, t) {
      var i, r := ConfigIsLastAsked(ctx, t);
      var a: nat, c: nat := i, r;
      assert LastToAsk(ctx, a, c, t);
      forall j: nat, q: nat | LastToAsk(ctx, j, q, t) ensures j == a && q == c {}
    } else if t in Configs(ctx) {
      DefaultConfigIs(ctx, t);
    }
  }

  /** A redirect to an emitted HTTPS listener exists exactly when the last rule to ask for that listener
      belongs to an ingress with ssl-redirect. */
  lemma RedirectMadeIff(ctx: Context, b: Built, t: ListenerId)
    requires IsBuild(ctx, b) && PortIdsClear(ctx) && IpsClear(ctx) && GaplessHosts(ctx)
    ensures RedirectName(t) in RedirectIds(b.redirects) <==> t in b.ids && t.port == 443 && LastAskerRedirects(ctx, t)
  {
    GaplessConfigsIff(ctx);
    NoGapsFromConfigs(ctx, b.configs, b.ids);
    RedirectThere(ctx, b.configs, b.byId, b.targets, b.redirects, t);
    GroupOf(ctx, b, t);
    RedirectConfigured(ctx, t);
  }

  /** A rule with ssl-redirect and a certificate has its HTTP listener redirected exactly when the last rule
      to ask for the HTTPS listener of the same hosts has ssl-redirect too. */
  lemma SslRedirectIff(ctx: Context, b: Built, i: nat, r: nat, id: ListenerId)
    requires IsBuild(ctx, b) && PortIdsClear(ctx) && IpsClear(ctx) && GaplessHosts(ctx)
    requires Asks(ctx, i, r, id) && id.port == 80 && ctx.ingresses[i].sslRedirect
    requires HasTls(ctx, ctx.ingresses[i], ctx.ingresses[i].rules[r]) && id.(port := 443) in b.ids
    ensures Redirected(ctx, RedirectIds(b.redirects), i, id) <==> LastAskerRedirects(ctx, id.(port := 443))
  {
    RedirectMadeIff(ctx, b, id.(port := 443));
  }

  /** So when every rule for those hosts has ssl-redirect, the redirect is the default of the HTTP listener,
      unless that is the default listener and overwritten. */
  lemma SslRedirectIsAttached(ctx: Context, b: Built, i: nat, r: nat, id: ListenerId)
    requires IsBuild(ctx, b) && PortIdsClear(ctx) && IpsClear(ctx) && GaplessHosts(ctx)
    requires Asks(ctx, i, r, id) && id.port == 80 && ctx.ingresses[i].sslRedirect
    requires HasTls(ctx, ctx.ingresses[i], ctx.ingresses[i].rules[r]) && id.(port := 443) in b.ids
    requires forall j: nat, q: nat :: Asks(ctx, j, q, id.(port := 443)) ==> ctx.ingresses[j].sslRedirect
    requires !IsDefault(id)
    ensures id in b.maps && b.maps[id].redirect == Some(RedirectName(id.(port := 443)))
  {
    var t := id.(port := 443);
    assert Asks(ctx, i, r, t);
    var j, q := ConfigIsLastAsked(ctx, t);
    var a: nat, c: nat := j, q;
    assert LastToAsk(ctx, a, c, t);
    SslRedirectIff(ctx, b, i, r, id);
    ConfiguredIff(ctx, id);
    MapsCoverConfigs(ctx, EnvOf(b), b.maps, id);
    var w := MapDefaults(ctx, EnvOf(b), b.maps, id);
    assert RuleRedirects(ctx, EnvOf(b), id, w, i, r);
  }

  /** And when the last rule for those hosts has no ssl-redirect, nothing on the HTTP listener is redirected,
      whatever the other ingresses ask for. */
  lemma SslRedirectIsLost(ctx: Context, b: Built, id: ListenerId, j: nat, q: nat)
    requires IsBuild(ctx, b) && PortIdsClear(ctx) && IpsClear(ctx) && GaplessHosts(ctx) && id in b.maps
    requires LastToAsk(ctx, j, q, id.(port := 443)) && !ctx.ingresses[j].sslRedirect
    ensures b.maps[id].redirect.None? && forall pr :: pr in RulesIn(b.maps[id]) ==> pr.redirect.None?
  {
    NobodyRedirects(ctx, id.(port := 443), j, q);
    RedirectMadeIff(ctx, b, id.(port := 443));
    BuildPairsResolve(ctx, b);
    NothingRedirected(ctx, EnvOf(b), b.maps, id);
  }

  lemma BuildPairsResolve(ctx: Context, b: Built)
    requires IsBuild(ctx, b)
    ensures PairsResolve(ctx, EnvOf(b)) && PathMapsPass(ctx, EnvOf(b), b.maps)
  {
  }

  lemma NobodyRedirects(ctx: Context, t: ListenerId, j: nat, q: nat)
    requires LastToAsk(ctx, j, q, t) && !ctx.ingresses[j].sslRedirect
    ensures !LastAskerRedirects(ctx, t)
  {
    forall i: nat, r: nat | LastToAsk(ctx, i, r, t) ensures i == j {}
  }

  lemma NothingRedirected(ctx: Context, env: Env, maps: map<ListenerId, Props>, id: ListenerId)
    requires PairsResolve(ctx, env) && PathMapsPass(ctx, env, maps) && id in maps
    requires RedirectName(id.(port := 443)) !in env.redirects
    ensures maps[id].redirect.None? && forall pr :: pr in RulesIn(maps[id]) ==> pr.redirect.None?
  {
    var w := MapDefaults(ctx, env, maps, id);
    var v, spots := MapRoutes(ctx, env, maps, id);
    forall pr | pr in RulesIn(maps[id]) ensures pr.redirect.None? {
      var a :| 0 <= a < |spots| && RulesIn(maps[id])[a] == pr;
      assert RouteFor(ctx, env.redirects, id, spots[a], pr);
    }
  }

  // ---------------------------------------------------------------- pools, settings, probes, certificates

  /** The pair is the only port pair of the backend. */
  ghost predicate OnlyPair(ctx: Context, x: BackendId, pair: PortPair) {
    Exists(ctx, x) && ResolvesTo(ctx, ctx.ingresses[x.ingress].ns, BackendOf(ctx, x), {pair})
  }

  ghost predicate PoolOf(ctx: Context, x: BackendId, pair: PortPair, pool: Id)
    requires Exists(ctx, x)
  {
    var ing, backend := ctx.ingresses[x.ingress], BackendOf(ctx, x);
    && Offered(ctx, ing.ns, backend.service, pair.backendPort)
    && pool == PoolName(ing.ns + "-" + backend.service, backend.portText, pair.backendPort)
  }

  lemma PoolForIs(ctx: Context, x: BackendId, pair: PortPair, pool: Id)
    requires Exists(ctx, x)
    ensures PoolFor(ctx, x, pair) == pool && pool != DefaultPoolName <==> PoolOf(ctx, x, pair, pool)
  {
    OfferedIs(ctx, x, pair);
  }

  lemma PoolsPassed(ctx: Context, pairs: map<BackendId, PortPair>, pools: set<Id>, pool: Id)
    requires (forall x :: x in pairs ==> Exists(ctx, x)) && PoolsPass(ctx, pairs, pools)
    ensures pool in pools <==> pool == DefaultPoolName || exists x :: x in pairs && PoolOf(ctx, x, pairs[x], pool)
  {
    forall x | x in pairs
      ensures PoolFor(ctx, x, pairs[x]) == pool && pool != DefaultPoolName <==> PoolOf(ctx, x, pairs[x], pool)
    {
      PoolForIs(ctx, x, pairs[x], pool);
    }
  }

  /** The pools are the default one and those of the backends that some endpoint offers. */
  lemma PoolsAreWritten(ctx: Context, b: Built, pool: Id)
    requires IsBuild(ctx, b)
    ensures forall x :: x in b.pairs ==> OnlyPair(ctx, x, b.pairs[x])
    ensures pool in b.pools <==> pool == DefaultPoolName || exists x :: x in b.pairs && PoolOf(ctx, x, b.pairs[x], pool)
  {
    PoolsPassed(ctx, b.pairs, b.pools, pool);
  }

  /** The probe is the backend's own when a path names an existing service, and else a default one. */
  ghost predicate ProbeOf(ctx: Context, x: BackendId, probe: Id)
    requires Exists(ctx, x)
  {
    var ing, backend := ctx.ingresses[x.ingress], BackendOf(ctx, x);
    probe == if x.PathOf? && ing.ns + "/" + backend.service in ctx.services
             then ProbeName(ing.ns, backend.service, backend.portText, ing.name)
             else DefaultProbeName(if ing.backendHttps then HTTPS else HTTP)
  }

  /** The settings are for this backend: named for service, port and ingress, with its backend port. */
  ghost predicate SettingsOf(ctx: Context, x: BackendId, pair: PortPair, s: Setting)
    requires Exists(ctx, x)
  {
    var ing, backend := ctx.ingresses[x.ingress], BackendOf(ctx, x);
    && s.name == SettingsName(ing.ns + "-" + backend.service, backend.portText, pair.backendPort, ing.name)
    && s.port == pair.backendPort && ProbeOf(ctx, x, s.probe)
  }

  /** The settings have the name and the port that the backend's settings have. */
  ghost predicate ServeBackend(ctx: Context, x: BackendId, pair: PortPair, s: Setting)
    requires Exists(ctx, x)
  {
    var ing, backend := ctx.ingresses[x.ingress], BackendOf(ctx, x);
    && s.name == SettingsName(ing.ns + "-" + backend.service, backend.portText, pair.backendPort, ing.name)
    && s.port == pair.backendPort
  }

  lemma SettingForIs(ctx: Context, x: BackendId, pair: PortPair)
    requires Exists(ctx, x)
    ensures SettingsOf(ctx, x, pair, SettingFor(ctx, x, pair))
  {
  }

  lemma SettingsPassed(ctx: Context, pairs: map<BackendId, PortPair>, settings: seq<Setting>)
    requires (forall x :: x in pairs ==> Exists(ctx, x)) && SettingsPass(SettingsByBackend(ctx, pairs), settings)
    ensures forall s :: s in settings ==>
      s == Setting(DefaultSettingsName, 80, DefaultProbeName(HTTP))
        || exists x :: x in pairs && SettingsOf(ctx, x, pairs[x], s)
    ensures forall x :: x in pairs ==> exists s :: s in settings && ServeBackend(ctx, x, pairs[x], s)
  {
    var own := SettingsByBackend(ctx, pairs);
    forall s | s in settings && s != DEFAULT_SETTING ensures exists x :: x in pairs && SettingsOf(ctx, x, pairs[x], s) {
      var x :| x in own && s == own[x];
      SettingForIs(ctx, x, pairs[x]);
    }
    forall x | x in pairs ensures exists s :: s in settings && ServeBackend(ctx, x, pairs[x], s) {
      SettingForIs(ctx, x, pairs[x]);
      var s :| s in settings && s.name == own[x].name;
      if s != DEFAULT_SETTING {
        var y :| y in own && s == own[y];
        SettingForIs(ctx, y, pairs[y]);
      }
      assert ServeBackend(ctx, x, pairs[x], s);
    }
  }

  /** Settings are the default ones or for some backend; and every recorded backend has settings of its name
      and port. */
  lemma SettingsAreWritten(ctx: Context, b: Built)
    requires IsBuild(ctx, b)
    ensures forall x :: x in b.pairs ==> OnlyPair(ctx, x, b.pairs[x])
    ensures forall s :: s in b.settings ==>
      s == Setting(DefaultSettingsName, 80, DefaultProbeName(HTTP))
        || exists x :: x in b.pairs && SettingsOf(ctx, x, b.pairs[x], s)
    ensures forall x :: x in b.pairs ==> exists s :: s in b.settings && ServeBackend(ctx, x, b.pairs[x], s)
  {
    SettingsPassed(ctx, b.pairs, b.settings);
  }

  lemma ProbesPassed(ctx: Context, probes: set<Id>, probe: Id)
    requires ProbesPass(ctx, probes)
    ensures probe in probes <==>
      || probe == DefaultProbeName(HTTP) || probe == DefaultProbeName(HTTPS)
      || exists x :: Exists(ctx, x) && ProbeOf(ctx, x, probe)
  {
    forall x | Exists(ctx, x) ensures ProbeOf(ctx, x, probe) <==> probe == ProbeFor(ctx, x) {}
  }

  /** The probes are the two default ones and those of all backends, resolved or not. */
  lemma ProbesAreWritten(ctx: Context, b: Built, probe: Id)
    requires IsBuild(ctx, b)
    ensures probe in b.probes <==>
      || probe == DefaultProbeName(HTTP) || probe == DefaultProbeName(HTTPS)
      || exists x :: Exists(ctx, x) && ProbeOf(ctx, x, probe)
  {
    ProbesPassed(ctx, b.probes, probe);
  }

  /** TLS entry `k` of ingress `i` names a secret with a certificate, and the certificate is called so. */
  ghost predicate CertOf(ctx: Context, i: int, k: int, cert: Id) {
    && 0 <= i < |ctx.ingresses| && 0 <= k < |ctx.ingresses[i].tls|
    && var ing, name := ctx.ingresses[i], ctx.ingresses[i].tls[k].secretName;
       name != "" && ing.ns + "/" + name in ctx.certs && cert == CertName(ing.ns + "-" + name)
  }

  lemma SecretIs(ctx: Context, i: nat, cert: Id)
    requires i < |ctx.ingresses|
    ensures (exists s :: s in SecretsWithCert(ctx, ctx.ingresses[i]) && cert == CertName(SecretFullName(s))) <==>
      exists k :: CertOf(ctx, i, k, cert)
  {
    var ing := ctx.ingresses[i];
    forall s | s in SecretsWithCert(ctx, ing) && cert == CertName(SecretFullName(s))
      ensures exists k :: CertOf(ctx, i, k, cert)
    {
      var tls :| tls in ing.tls && Usable(ctx, ing, tls) && s == SecretId(ing.ns, tls.secretName);
      var k :| 0 <= k < |ing.tls| && ing.tls[k] == tls;
      assert CertOf(ctx, i, k, cert);
    }
    forall k | CertOf(ctx, i, k, cert)
      ensures exists s :: s in SecretsWithCert(ctx, ing) && cert == CertName(SecretFullName(s))
    {
      assert ing.tls[k] in ing.tls && Usable(ctx, ing, ing.tls[k]);
      assert SecretId(ing.ns, ing.tls[k].secretName) in SecretsWithCert(ctx, ing);
    }
  }

  lemma CertsPassed(ctx: Context, certs: set<Id>, cert: Id)
    requires CertsPass(ctx, certs)
    ensures cert in certs <==> exists i, k :: CertOf(ctx, i, k, cert)
  {
    forall i | 0 <= i < |ctx.ingresses|
      ensures (exists s :: s in SecretsWithCert(ctx, ctx.ingresses[i]) && cert == CertName(SecretFullName(s))) <==>
        exists k :: CertOf(ctx, i, k, cert)
    {
      SecretIs(ctx, i, cert);
    }
    if i, k :| CertOf(ctx, i, k, cert) {
      var s :| s in SecretsWithCert(ctx, ctx.ingresses[i]) && cert == CertName(SecretFullName(s));
    }
  }

  /** The certificates are those of all TLS entries whose secret has one. */
  lemma CertsAreWritten(ctx: Context, b: Built, cert: Id)
    requires IsBuild(ctx, b)
    ensures cert in b.certs <==> exists i, k :: CertOf(ctx, i, k, cert)
  {
    CertsPassed(ctx, b.certs, cert);
  }
}
