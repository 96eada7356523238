/**
 Which listeners the ingresses ask for, and with what configuration
 (pkg/appgw/certificates.go, pkg/appgw/ingress_rules.go, and getListenerConfigs of
 pkg/appgw/frontend_listeners.go).
 */
module IngressListeners {
  import opened Iteration
  import opened Resources
  import opened RoutingTypes
  import opened ListenerIds

  function SecretKey(s: SecretId): string {
    s.ns + "/" + s.name
  }

  function SecretFullName(s: SecretId): string {
    s.ns + "-" + s.name
  }

  // ---------------------------------------------------------------- certificates

  predicate Usable(ctx: Context, ing: Ingress, tls: Tls) {
    tls.secretName != "" && SecretKey(SecretId(ing.ns, tls.secretName)) in ctx.certs
  }

  /** The keys of getSecretToCertificateMap. */
  function SecretsWithCert(ctx: Context, ing: Ingress): set<SecretId> {
    set tls | tls in ing.tls && Usable(ctx, ing, tls) :: SecretId(ing.ns, tls.secretName)
  }

  /** A TLS entry without hosts is the default for the ingress, as is one for the blank host. */
  predicate CoversHost(tls: Tls, host: string) {
    host in tls.hosts || (host == "" && tls.hosts == [])
  }

  /** `s` is the secret of the last usable TLS entry covering `host`. */
  ghost predicate LastCovering(ctx: Context, ing: Ingress, n: nat, host: string, s: SecretId)
    requires n <= |ing.tls|
  {
    exists k ::
      && 0 <= k < n && Usable(ctx, ing, ing.tls[k]) && CoversHost(ing.tls[k], host)
      && s == SecretId(ing.ns, ing.tls[k].secretName)
      && forall j :: k < j < n && Usable(ctx, ing, ing.tls[j]) ==> !CoversHost(ing.tls[j], host)
  }

  ghost predicate HostMap(ctx: Context, ing: Ingress, n: nat, m: map<string, SecretId>)
    requires n <= |ing.tls|
  {
    && (forall host :: host in m ==> LastCovering(ctx, ing, n, host, m[host]))
    && (forall host, k :: 0 <= k < n && Usable(ctx, ing, ing.tls[k]) && CoversHost(ing.tls[k], host) ==> host in m)
  }

  function HostToSecret(ctx: Context, ing: Ingress, n: nat): map<string, SecretId>
    requires n <= |ing.tls|
  {
    if n == 0 then map[]
    else
      var tls, before := ing.tls[n - 1], HostToSecret(ctx, ing, n - 1);
      if !Usable(ctx, ing, tls) then before
      else
        var hosts := if tls.hosts == [] then [""] else tls.hosts;
        before + map host | host in hosts :: SecretId(ing.ns, tls.secretName)
  }

  /** newHostToSecretMap maps each host to the last usable TLS entry covering it. */
  lemma {:induction false} HostToSecretIsLastCovering(ctx: Context, ing: Ingress, n: nat)
    requires n <= |ing.tls|
    ensures HostMap(ctx, ing, n, HostToSecret(ctx, ing, n))
  {
    if n > 0 {
      HostToSecretIsLastCovering(ctx, ing, n - 1);
      var before, m, tls := HostToSecret(ctx, ing, n - 1), HostToSecret(ctx, ing, n), ing.tls[n - 1];
      forall host | host in m ensures LastCovering(ctx, ing, n, host, m[host]) {
        if Usable(ctx, ing, tls) && CoversHost(tls, host) {
          assert m[host] == SecretId(ing.ns, tls.secretName);
        } else {
          assert host in before && LastCovering(ctx, ing, n - 1, host, before[host]);
        }
      }
    }
  }

  /** getCertificate: the secret for the host, or else the default one. */
  function CertificateFor(ctx: Context, ing: Ingress, host: string): (s: Option<SecretId>)
    ensures s.Some? ==> s.value in SecretsWithCert(ctx, ing)
  {
    var m := HostToSecret(ctx, ing, |ing.tls|);
    var found := if host in m then Some(m[host]) else if "" in m then Some(m[""]) else None;
    if found.Some? && found.value in SecretsWithCert(ctx, ing) then found else None
  }

  // ---------------------------------------------------------------- one ingress rule

  const HTTP_PORT: int := 80
  const HTTPS_PORT: int := 443

  function HostsOf(ing: Ingress, rule: IngressRule): seq<string> {
    (if rule.host != "" then [rule.host] else []) + ing.extraHosts
  }

  /** generateListenerID. */
  function ListenerFor(ing: Ingress, rule: IngressRule, protocol: Protocol, privateIp: bool): ListenerId {
    WithHosts(Bare(if protocol == HTTPS then HTTPS_PORT else HTTP_PORT, privateIp), HostsOf(ing, rule))
  }

  /** processIngressRule: HTTPS when there is a certificate; HTTP when there is none, and also
      beside HTTPS when the ingress asks for a redirect. */
  function ProcessRule(ctx: Context, ing: Ingress, rule: IngressRule): map<ListenerId, AzConfig> {
    var privateIp := ing.privateIp || ctx.usePrivateIp;
    var cert := CertificateFor(ctx, ing, rule.host);
    var https, http := ListenerFor(ing, rule, HTTPS, privateIp), ListenerFor(ing, rule, HTTP, privateIp);
    (if cert.Some? then
       map[https := AzConfig(HTTPS, cert, if ing.sslRedirect then Some(RedirectName(https)) else None, "")]
     else map[])
    + (if ing.sslRedirect || cert.None? then map[http := AzConfig(HTTP, None, None, "")] else map[])
  }

  /** Rule `r` of ingress `i` is an HTTP rule that asks for listener `id`. */
  predicate Serves(ctx: Context, i: int, r: int, id: ListenerId) {
    && 0 <= i < |ctx.ingresses| && 0 <= r < |ctx.ingresses[i].rules|
    && ctx.ingresses[i].rules[r].http.Some?
    && id in ProcessRule(ctx, ctx.ingresses[i], ctx.ingresses[i].rules[r])
  }

  /** What holds of every configured listener. */
  ghost predicate Shape(ctx: Context, id: ListenerId, c: AzConfig) {
    && Canonical(id)
    && id.port == (if c.protocol == HTTPS then HTTPS_PORT else HTTP_PORT)
    && (c.protocol == HTTPS <==> c.secret.Some?)
    && (c.redirect.Some? ==> c.protocol == HTTPS && c.redirect == Some(RedirectName(id)))
    && (c.secret.Some? ==> exists ing :: ing in ctx.ingresses && c.secret.value in SecretsWithCert(ctx, ing))
  }

  lemma ListenerForCanonical(ing: Ingress, rule: IngressRule, protocol: Protocol, privateIp: bool)
    ensures Canonical(ListenerFor(ing, rule, protocol, privateIp))
  {
  }

  lemma ProcessRuleShape(ctx: Context, ing: Ingress, rule: IngressRule)
    requires ing in ctx.ingresses
    ensures forall id :: id in ProcessRule(ctx, ing, rule) ==> Shape(ctx, id, ProcessRule(ctx, ing, rule)[id])
  {
    ListenerForCanonical(ing, rule, HTTP, ing.privateIp || ctx.usePrivateIp);
    ListenerForCanonical(ing, rule, HTTPS, ing.privateIp || ctx.usePrivateIp);
  }

  // ---------------------------------------------------------------- all ingresses

  /** What each rule of an ingress asks for; nothing if it is not an HTTP rule. */
  function RuleConfigs(ctx: Context, ing: Ingress): (ms: seq<map<ListenerId, AzConfig>>)
    ensures |ms| == |ing.rules|
  {
    seq(|ing.rules|, r requires 0 <= r < |ing.rules| =>
      if ing.rules[r].http.None? then map[] else ProcessRule(ctx, ing, ing.rules[r]))
  }

  /** getListenersFromIngress. */
  function IngressConfigs(ctx: Context, ing: Ingress): map<ListenerId, AzConfig> {
    Overlay(RuleConfigs(ctx, ing))
  }

  function AttachWaf(ctx: Context, ing: Ingress, c: AzConfig): AzConfig {
    if ctx.attachWafToListener && ing.wafPolicy.Some? && ing.wafPolicy.value != "" then
      c.(firewall := ing.wafPolicy.value)
    else c
  }

  /** What each ingress asks for. */
  function AllConfigs(ctx: Context): (ms: seq<map<ListenerId, AzConfig>>)
    ensures |ms| == |ctx.ingresses|
  {
    seq(|ctx.ingresses|, i requires 0 <= i < |ctx.ingresses| =>
      var own := IngressConfigs(ctx, ctx.ingresses[i]);
      map id | id in own :: AttachWaf(ctx, ctx.ingresses[i], own[id]))
  }

  /** The policy of the first ingress that has one. */
  function FirstWaf(ings: seq<Ingress>): string {
    if ings == [] then ""
    else if ings[0].wafPolicy.Some? && ings[0].wafPolicy.value != "" then ings[0].wafPolicy.value
    else FirstWaf(ings[1..])
  }

  function DefaultListener(): ListenerId {
    Bare(HTTP_PORT, false)
  }

  function DefaultConfig(ctx: Context): AzConfig {
    AzConfig(HTTP, None, None, if ctx.attachWafToListener then FirstWaf(ctx.ingresses) else "")
  }

  /** getListenerConfigs. */
  function Configs(ctx: Context): map<ListenerId, AzConfig> {
    var all := Overlay(AllConfigs(ctx));
    if |all| == 0 then map[DefaultListener() := DefaultConfig(ctx)] else all
  }

  ghost predicate Requested(ctx: Context, id: ListenerId) {
    exists i, r :: Serves(ctx, i, r, id)
  }

  lemma IngressConfigsAre(ctx: Context, i: nat, id: ListenerId)
    requires i < |ctx.ingresses|
    ensures var own := IngressConfigs(ctx, ctx.ingresses[i]);
            (id in own <==> exists r :: Serves(ctx, i, r, id)) && (id in own ==> Shape(ctx, id, own[id]))
  {
    var ing := ctx.ingresses[i];
    var ms := RuleConfigs(ctx, ing);
    if id in Overlay(ms) {
      var r := OverlaySays(ms, id);
      assert Serves(ctx, i, r, id);
      ProcessRuleShape(ctx, ing, ing.rules[r]);
    }
    forall r | Serves(ctx, i, r, id) ensures id in Overlay(ms) {
      OverlayKnows(ms, r, id);
    }
  }

  lemma AllConfigsAre(ctx: Context, id: ListenerId)
    ensures id in Overlay(AllConfigs(ctx)) <==> Requested(ctx, id)
    ensures id in Overlay(AllConfigs(ctx)) ==> Shape(ctx, id, Overlay(AllConfigs(ctx))[id])
  {
    var ms := AllConfigs(ctx);
    if id in Overlay(ms) {
      var i := OverlaySays(ms, id);
      IngressConfigsAre(ctx, i, id);
    }
    forall i, r | Serves(ctx, i, r, id) ensures id in Overlay(ms) {
      IngressConfigsAre(ctx, i, id);
      OverlayKnows(ms, i, id);
    }
  }

  /** The configured listeners are those some HTTP rule asks for, or the default one when none
      does; each has the shape of its protocol. */
  lemma ConfigsAre(ctx: Context)
    ensures forall id :: id in Configs(ctx) <==>
      Requested(ctx, id) || (id == DefaultListener() && forall other :: !Requested(ctx, other))
    ensures forall id :: id in Configs(ctx) ==> Shape(ctx, id, Configs(ctx)[id])
  {
    forall id { AllConfigsAre(ctx, id); }
    var all := Overlay(AllConfigs(ctx));
    if |all| == 0 {
      assert all == map[];
      assert Canonical(DefaultListener()) by {
        FirstNonBlankPadded([], MAX_HOSTNAMES);
        assert [] + Blanks(MAX_HOSTNAMES) == Blanks(MAX_HOSTNAMES);
      }
    } else {
      var id :| id in all;
    }
  }
}
