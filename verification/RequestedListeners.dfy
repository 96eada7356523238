/**
 Which listeners the ingress rules ask for, in the words of the ingresses themselves: TLS entries,
 host names, annotations (pkg/appgw/ingress_rules.go, pkg/appgw/certificates.go,
 pkg/appgw/frontend_listeners.go).
 */
module RequestedListeners {
  import opened Iteration
  import opened Resources
  import opened RoutingTypes
  import opened ListenerIds
  import opened IngressListeners
  import opened Backends

  // ---------------------------------------------------------------- certificates

  /** TLS entry `k` names a secret with a certificate and covers the host; an entry without hosts covers
      the blank host. */
  ghost predicate EntryFor(ctx: Context, ing: Ingress, host: string, k: int) {
    && 0 <= k < |ing.tls| && ing.tls[k].secretName != "" && ing.ns + "/" + ing.tls[k].secretName in ctx.certs
    && (host in ing.tls[k].hosts || (host == "" && ing.tls[k].hosts == []))
  }

  ghost predicate LastEntryFor(ctx: Context, ing: Ingress, host: string, k: int) {
    EntryFor(ctx, ing, host, k) && forall j :: EntryFor(ctx, ing, host, j) ==> j <= k
  }

  /** TLS entry `k` provides the rule's certificate: the last for its host or, without any, the last for the
      blank host. */
  ghost predicate CertEntry(ctx: Context, ing: Ingress, rule: IngressRule, k: int) {
    || LastEntryFor(ctx, ing, rule.host, k)
    || (LastEntryFor(ctx, ing, "", k) && forall j :: !EntryFor(ctx, ing, rule.host, j))
  }

  ghost predicate HasTls(ctx: Context, ing: Ingress, rule: IngressRule) {
    exists k :: CertEntry(ctx, ing, rule, k)
  }

  /** Last covering entries, in either wording. */
  lemma LastCoveringIs(ctx: Context, ing: Ingress, host: string, s: SecretId)
    ensures LastCovering(ctx, ing, |ing.tls|, host, s) <==>
      exists k :: LastEntryFor(ctx, ing, host, k) && s == SecretId(ing.ns, ing.tls[k].secretName)
  {
    forall k | 0 <= k < |ing.tls|
      ensures EntryFor(ctx, ing, host, k) <==> Usable(ctx, ing, ing.tls[k]) && CoversHost(ing.tls[k], host)
    {
      assert SecretKey(SecretId(ing.ns, ing.tls[k].secretName)) == ing.ns + "/" + ing.tls[k].secretName;
    }
    if k :| LastEntryFor(ctx, ing, host, k) && s == SecretId(ing.ns, ing.tls[k].secretName) {
      forall j | k < j < |ing.tls| && Usable(ctx, ing, ing.tls[j]) ensures !CoversHost(ing.tls[j], host) {
        assert !EntryFor(ctx, ing, host, j);
      }
    }
    if LastCovering(ctx, ing, |ing.tls|, host, s) {
      var k :|
        && 0 <= k < |ing.tls| && Usable(ctx, ing, ing.tls[k]) && CoversHost(ing.tls[k], host)
        && s == SecretId(ing.ns, ing.tls[k].secretName)
        && forall j :: k < j < |ing.tls| && Usable(ctx, ing, ing.tls[j]) ==> !CoversHost(ing.tls[j], host);
      assert LastEntryFor(ctx, ing, host, k);
    }
  }

  lemma HostIsMapped(ctx: Context, ing: Ingress, host: string)
    ensures var m := HostToSecret(ctx, ing, |ing.tls|);
      && (host in m <==> exists k :: EntryFor(ctx, ing, host, k))
      && (host in m ==>
            exists k :: LastEntryFor(ctx, ing, host, k) && m[host] == SecretId(ing.ns, ing.tls[k].secretName))
  {
    HostToSecretIsLastCovering(ctx, ing, |ing.tls|);
    var m := HostToSecret(ctx, ing, |ing.tls|);
    if host in m {
      LastCoveringIs(ctx, ing, host, m[host]);
    }
    forall k | EntryFor(ctx, ing, host, k) ensures host in m {
      assert SecretKey(SecretId(ing.ns, ing.tls[k].secretName)) == ing.ns + "/" + ing.tls[k].secretName;
    }
  }

  lemma MappedHasCert(ctx: Context, ing: Ingress, host: string, k: int)
    requires EntryFor(ctx, ing, host, k)
    ensures SecretId(ing.ns, ing.tls[k].secretName) in SecretsWithCert(ctx, ing)
  {
    assert SecretKey(SecretId(ing.ns, ing.tls[k].secretName)) == ing.ns + "/" + ing.tls[k].secretName;
    assert ing.tls[k] in ing.tls && Usable(ctx, ing, ing.tls[k]);
  }

  /** getCertificate finds the secret of the rule's TLS entry, and nothing exactly when there is none. */
  lemma CertificateIs(ctx: Context, ing: Ingress, rule: IngressRule)
    ensures var s := CertificateFor(ctx, ing, rule.host);
      && (s.Some? <==> HasTls(ctx, ing, rule))
      && (s.Some? ==> exists k :: CertEntry(ctx, ing, rule, k) && s.value == SecretId(ing.ns, ing.tls[k].secretName))
  {
    HostIsMapped(ctx, ing, rule.host);
    HostIsMapped(ctx, ing, "");
    var m := HostToSecret(ctx, ing, |ing.tls|);
    if rule.host in m {
      var k :| LastEntryFor(ctx, ing, rule.host, k) && m[rule.host] == SecretId(ing.ns, ing.tls[k].secretName);
      MappedHasCert(ctx, ing, rule.host, k);
      assert CertEntry(ctx, ing, rule, k);
    } else if "" in m {
      var k :| LastEntryFor(ctx, ing, "", k) && m[""] == SecretId(ing.ns, ing.tls[k].secretName);
      MappedHasCert(ctx, ing, "", k);
      assert CertEntry(ctx, ing, rule, k);
    }
  }

  lemma CertEntryUnique(ctx: Context, ing: Ingress, rule: IngressRule, k: int, l: int)
    requires CertEntry(ctx, ing, rule, k) && CertEntry(ctx, ing, rule, l)
    ensures k == l
  {
  }

  // ---------------------------------------------------------------- identifiers

  function ExtraHost(ing: Ingress, j: nat): string {
    if j < |ing.extraHosts| then ing.extraHosts[j] else ""
  }

  /** Host name `j` of the rule's listener: the rule's own host, if it has one, and then those of the
      annotation. */
  function HostAt(ing: Ingress, rule: IngressRule, j: nat): string {
    if rule.host == "" then ExtraHost(ing, j) else if j == 0 then rule.host else ExtraHost(ing, j - 1)
  }

  /** `h` is the first of the names that is not blank, or blank when all are. */
  ghost predicate FirstName(hs: seq<string>, h: string) {
    exists j :: FirstNameAt(hs, h, j)
  }

  ghost predicate FirstNameAt(hs: seq<string>, h: string, j: int) {
    && 0 <= j <= |hs| && (forall i :: 0 <= i < j ==> hs[i] == "")
    && if j < |hs| then h == hs[j] != "" else h == ""
  }

  /** The identifier of the listener for the rule on this port. */
  ghost predicate IdFits(ctx: Context, ing: Ingress, rule: IngressRule, port: int, id: ListenerId) {
    && id.port == port && id.privateIp == (ing.privateIp || ctx.usePrivateIp)
    && |id.hostNames| == 5 && (forall j :: 0 <= j < 5 ==> id.hostNames[j] == HostAt(ing, rule, j))
    && FirstName(id.hostNames, id.hostName)
  }

  /** Rule `r` of ingress `i` asks for the listener: over HTTPS when it has a certificate, and over HTTP when
      it has none or the ingress asks for a redirect. */
  ghost predicate Asks(ctx: Context, i: int, r: int, id: ListenerId) {
    && HttpRule(ctx, i, r)
    && var ing, rule := ctx.ingresses[i], ctx.ingresses[i].rules[r];
       || (HasTls(ctx, ing, rule) && IdFits(ctx, ing, rule, 443, id))
       || ((ing.sslRedirect || !HasTls(ctx, ing, rule)) && IdFits(ctx, ing, rule, 80, id))
  }

  lemma {:induction false} FirstNonBlankIs(hs: seq<string>, h: string)
    ensures FirstName(hs, h) <==> h == FirstNonBlank(hs)
  {
    if hs == [] || hs[0] != "" {
      assert FirstNameAt(hs, FirstNonBlank(hs), 0);
    } else {
      var t := hs[1..];
      FirstNonBlankIs(t, h);
      forall j | FirstNameAt(t, h, j) ensures FirstNameAt(hs, h, j + 1) {}
      forall j | FirstNameAt(hs, h, j) ensures FirstNameAt(t, h, j - 1) {
        assert forall i :: 0 <= i < j - 1 ==> t[i] == hs[i + 1];
      }
    }
  }

  lemma PaddedHosts(ing: Ingress, rule: IngressRule)
    ensures forall j :: 0 <= j < 5 ==> Padded(HostsOf(ing, rule))[j] == HostAt(ing, rule, j)
  {
    var hs := HostsOf(ing, rule);
    forall j | 0 <= j < 5 ensures Padded(hs)[j] == HostAt(ing, rule, j) {
      if j < |hs| {
        assert hs[j] == HostAt(ing, rule, j);
      }
    }
  }

  lemma IdFitsIs(ctx: Context, ing: Ingress, rule: IngressRule, protocol: Protocol, id: ListenerId)
    ensures IdFits(ctx, ing, rule, if protocol == HTTPS then 443 else 80, id) <==>
      id == ListenerFor(ing, rule, protocol, ing.privateIp || ctx.usePrivateIp)
  {
    var own := ListenerFor(ing, rule, protocol, ing.privateIp || ctx.usePrivateIp);
    PaddedHosts(ing, rule);
    FirstNonBlankIs(own.hostNames, own.hostName);
    FirstNonBlankIs(id.hostNames, id.hostName);
    if IdFits(ctx, ing, rule, if protocol == HTTPS then 443 else 80, id) {
      assert id.hostNames == own.hostNames;
    }
  }

  /** processIngressRule asks for a listener exactly when the rule does. */
  lemma ServesIff(ctx: Context, i: int, r: int, id: ListenerId)
    ensures Serves(ctx, i, r, id) <==> Asks(ctx, i, r, id)
  {
    if HttpRule(ctx, i, r) {
      var ing, rule := ctx.ingresses[i], ctx.ingresses[i].rules[r];
      CertificateIs(ctx, ing, rule);
      IdFitsIs(ctx, ing, rule, HTTPS, id);
      IdFitsIs(ctx, ing, rule, HTTP, id);
    }
  }

  // ---------------------------------------------------------------- configurations

  ghost predicate AskedFor(ctx: Context, id: ListenerId) {
    exists i, r :: Asks(ctx, i, r, id)
  }

  /** A public HTTP listener without host names. */
  ghost predicate IsDefault(id: ListenerId) {
    id.port == 80 && !id.privateIp && id.hostName == "" && id.hostNames == ["", "", "", "", ""]
  }

  /** The configured listeners are those some rule asks for, or the default one when none does. */
  lemma ConfiguredIff(ctx: Context, id: ListenerId)
    ensures id in Configs(ctx) <==>
      AskedFor(ctx, id) || (IsDefault(id) && forall other :: !AskedFor(ctx, other))
  {
    ConfigsAre(ctx);
    RequestedIff(ctx);
    DefaultIs(id);
  }

  lemma DefaultIs(id: ListenerId)
    ensures IsDefault(id) <==> id == DefaultListener()
  {
    assert Blanks(MAX_HOSTNAMES) == ["", "", "", "", ""];
  }

  lemma RequestedIff(ctx: Context)
    ensures forall id :: Requested(ctx, id) <==> AskedFor(ctx, id)
  {
    forall id ensures Requested(ctx, id) <==> AskedFor(ctx, id) {
      forall i, r { ServesIff(ctx, i, r, id); }
    }
  }

  /** Rule `r` of ingress `i` is the last to ask for the listener. */
  ghost predicate LastToAsk(ctx: Context, i: int, r: int, id: ListenerId) {
    Asks(ctx, i, r, id) && forall j, q :: Asks(ctx, j, q, id) ==> j < i || (j == i && q <= r)
  }

  /** The configuration that the rule gives the listener. */
  ghost predicate ConfiguredBy(ctx: Context, i: int, r: int, id: ListenerId, c: AzConfig)
    requires HttpRule(ctx, i, r)
  {
    var ing, rule := ctx.ingresses[i], ctx.ingresses[i].rules[r];
    && c.protocol == (if id.port == 443 then HTTPS else HTTP)
    && (if id.port == 443
        then exists k :: CertEntry(ctx, ing, rule, k) && c.secret == Some(SecretId(ing.ns, ing.tls[k].secretName))
        else c.secret == None)
    && c.redirect == (if id.port == 443 && ing.sslRedirect then Some(RedirectName(id)) else None)
    && c.firewall == (if ctx.attachWafToListener && ing.wafPolicy.Some? then ing.wafPolicy.value else "")
  }

  lemma ProcessedIs(ctx: Context, i: int, r: int, id: ListenerId)
    requires Serves(ctx, i, r, id)
    ensures HttpRule(ctx, i, r)
    ensures var ing := ctx.ingresses[i];
      ConfiguredBy(ctx, i, r, id, AttachWaf(ctx, ing, ProcessRule(ctx, ing, ing.rules[r])[id]))
  {
    CertificateIs(ctx, ctx.ingresses[i], ctx.ingresses[i].rules[r]);
  }

  /** The configuration of a requested listener is that of the last rule to ask for it. */
  lemma ConfigIsLastAsked(ctx: Context, id: ListenerId) returns (i: int, r: int)
    requires AskedFor(ctx, id)
    ensures LastToAsk(ctx, i, r, id) && id in Configs(ctx) && ConfiguredBy(ctx, i, r, id, Configs(ctx)[id])
  {
    forall j, q { ServesIff(ctx, j, q, id); }
    AllConfigsAre(ctx, id);
    var all := AllConfigs(ctx);
    i := OverlaySays(all, id);
    var own := RuleConfigs(ctx, ctx.ingresses[i]);
    r := OverlaySays(own, id);
    assert Serves(ctx, i, r, id);
    ProcessedIs(ctx, i, r, id);
    forall j, q | Serves(ctx, j, q, id) ensures j < i || (j == i && q <= r) {
      IngressConfigsAre(ctx, j, id);
      assert id in all[j];
      if j == i { assert id in own[q]; }
    }
  }

  /** The firewall policies of the ingresses, blank where there is none. */
  function Policies(ings: seq<Ingress>): (ps: seq<string>)
    ensures |ps| == |ings|
    ensures forall i :: 0 <= i < |ings| ==> ps[i] == if ings[i].wafPolicy.Some? then ings[i].wafPolicy.value else ""
  {
    seq(|ings|, i requires 0 <= i < |ings| => if ings[i].wafPolicy.Some? then ings[i].wafPolicy.value else "")
  }

  lemma {:induction false} FirstWafIs(ings: seq<Ingress>)
    ensures FirstWaf(ings) == FirstNonBlank(Policies(ings))
  {
    if ings != [] {
      FirstWafIs(ings[1..]);
      assert Policies(ings)[1..] == Policies(ings[1..]);
    }
  }

  /** When nothing is asked for, the one listener serves HTTP, with the first policy of any ingress. */
  lemma DefaultConfigIs(ctx: Context, id: ListenerId)
    requires id in Configs(ctx) && !AskedFor(ctx, id)
    ensures var c := Configs(ctx)[id];
      && c.protocol == HTTP && c.secret.None? && c.redirect.None?
      && (if ctx.attachWafToListener then FirstName(Policies(ctx.ingresses), c.firewall) else c.firewall == "")
  {
    RequestedIff(ctx);
    AllConfigsAre(ctx, id);
    FirstWafIs(ctx.ingresses);
    FirstNonBlankIs(Policies(ctx.ingresses), FirstWaf(ctx.ingresses));
  }
}
