/**
 Where a listener of a build sends what no path rule is for, in the words of the ingresses: default
 redirect, pool and settings, each decided by the last rule that brings one
 (getDefaultFromRule, mergePathMap and noRulesIngress of pkg/appgw/requestroutingrules.go).
 */
module BuildDefaults {
  import opened Iteration
  import opened Resources
  import opened RoutingTypes
  import opened IngressListeners
  import opened RequestedListeners
  import opened Backends
  import opened PathMaps
  import opened BuildSpec
  import opened BuildDangling
  import opened BuildRoutes

  // ---------------------------------------------------------------- what one rule brings

  /** Path `p` is the last of the rule's paths that stand for everything. */
  ghost predicate LastDefaultAt(ctx: Context, i: nat, r: nat, p: int)
    requires HttpRule(ctx, i, r)
  {
    var paths := ctx.ingresses[i].rules[r].http.value;
    && 0 <= p < |paths| && paths[p].path in ["", "/", "/*"]
    && forall q :: p < q < |paths| ==> paths[q].path !in ["", "/", "/*"]
  }

  /** Pool and settings are those of the backend, or the default ones when it has no port pair. */
  ghost predicate LeadToIfPaired(ctx: Context, paired: bool, ing: Ingress, backend: Backend, pool: Option<Id>,
                                 settings: Option<Id>) {
    if paired then LeadTo(ctx, ing, backend, pool, settings)
    else pool == Some(DefaultPoolName) && settings == Some(DefaultSettingsName)
  }

  /** The default pool and settings of the rule: those of its last default path's backend; without such a
      path those of the ingress' own backend; and without that the default ones. */
  ghost predicate RuleDefault(ctx: Context, pairs: map<BackendId, PortPair>, i: nat, r: nat, pool: Option<Id>,
                              settings: Option<Id>)
    requires HttpRule(ctx, i, r)
  {
    var ing, paths := ctx.ingresses[i], ctx.ingresses[i].rules[r].http.value;
    && (forall p :: LastDefaultAt(ctx, i, r, p) ==>
          LeadToIfPaired(ctx, PathOf(i, r, p) in pairs, ing, paths[p].backend, pool, settings))
    && ((forall p :: !LastDefaultAt(ctx, i, r, p)) && ing.backend.Some? ==>
          LeadToIfPaired(ctx, DefaultOf(i) in pairs, ing, ing.backend.value, pool, settings))
    && ((forall p :: !LastDefaultAt(ctx, i, r, p)) && ing.backend.None? ==>
          pool == Some(DefaultPoolName) && settings == Some(DefaultSettingsName))
  }

  lemma DefaultPathIs(ctx: Context, i: nat, r: nat)
    requires HttpRule(ctx, i, r)
    ensures var p := LastDefaultPath(ctx, i, r, NumPaths(ctx, i, r));
      (0 <= p ==> forall q :: LastDefaultAt(ctx, i, r, q) <==> q == p)
      && (p < 0 ==> forall q :: !LastDefaultAt(ctx, i, r, q))
  {
    var p, paths := LastDefaultPath(ctx, i, r, NumPaths(ctx, i, r)), ctx.ingresses[i].rules[r].http.value;
    forall q | 0 <= q < |paths|
      ensures IsDefaultPath(PathAt(ctx, i, r, q).path) <==> paths[q].path in ["", "/", "/*"]
    {
    }
  }

  /** Pool and settings that a rule's default backend gets are the rule's default. */
  lemma MadeDefault(ctx: Context, env: Env, i: nat, r: nat)
    requires PairsResolve(ctx, env) && HttpRule(ctx, i, r)
    ensures var b := DefaultBackend(ctx, i, r);
      if b.Some? && b.value in env.pairs
      then RuleDefault(ctx, env.pairs, i, r, Some(PoolFor(ctx, b.value, env.pairs[b.value])),
                       Some(SettingFor(ctx, b.value, env.pairs[b.value]).name))
      else RuleDefault(ctx, env.pairs, i, r, Some(DefaultPoolName), Some(DefaultSettingsName))
  {
    DefaultPathIs(ctx, i, r);
    var at, b := LastDefaultPath(ctx, i, r, NumPaths(ctx, i, r)), DefaultBackend(ctx, i, r);
    if 0 <= at { assert LastDefaultAt(ctx, i, r, at); }
    if b.Some? && b.value in env.pairs {
      MadeLeadTo(ctx, b.value, env.pairs[b.value]);
      assert IngressOf(ctx, b.value) == ctx.ingresses[i];
      assert 0 <= at ==> BackendOf(ctx, b.value) == ctx.ingresses[i].rules[r].http.value[at].backend;
    }
  }

  /** The default part of a contribution, in the words of the ingress. */
  lemma ContributionDefault(ctx: Context, env: Env, id: ListenerId, i: nat, r: nat)
    requires PairsResolve(ctx, env) && Serves(ctx, i, r, id)
    ensures HttpRule(ctx, i, r)
    ensures var c := StepContribution(ctx, env, OneRule(i, r), id);
      if Redirected(ctx, env.redirects, i, id)
      then c.redirect == Some(RedirectName(id.(port := 443))) && c.pool.None? && c.settings.None?
      else c.redirect.None? && RuleDefault(ctx, env.pairs, i, r, c.pool, c.settings)
  {
    PortTellsProtocol(ctx, i, r, id);
    MadeDefault(ctx, env, i, r);
  }

  // ---------------------------------------------------------------- pools and settings are determined

  lemma ResolvesToOnce(ctx: Context, ns: string, backend: Backend, p: PortPair, q: PortPair)
    requires ResolvesTo(ctx, ns, backend, {p}) && ResolvesTo(ctx, ns, backend, {q})
    ensures p == q
  {
    var key := ns + "/" + backend.service;
    if key in ctx.services && exists k :: FirstMatch(ctx.services[key], backend.portText, k) {
      var k :| FirstMatch(ctx.services[key], backend.portText, k) && PairsAre(ctx, key, ctx.services[key][k], {p});
      var l :| FirstMatch(ctx.services[key], backend.portText, l) && PairsAre(ctx, key, ctx.services[key][l], {q});
      assert k == l;
      assert p in {p} && q in {q};
      assert p in {q};
    } else {
      assert p in {p} && {p} == {q};
    }
  }

  lemma LeadToOnce(ctx: Context, ing: Ingress, backend: Backend, p: Option<Id>, s: Option<Id>, q: Option<Id>,
                   t: Option<Id>)
    requires LeadTo(ctx, ing, backend, p, s) && LeadTo(ctx, ing, backend, q, t)
    ensures p == q && s == t
  {
    var x :| ResolvesTo(ctx, ing.ns, backend, {x})
      && p == Some(if Offered(ctx, ing.ns, backend.service, x.backendPort)
                   then PoolName(ing.ns + "-" + backend.service, backend.portText, x.backendPort) else DefaultPoolName)
      && s == Some(SettingsName(ing.ns + "-" + backend.service, backend.portText, x.backendPort, ing.name));
    var y :| ResolvesTo(ctx, ing.ns, backend, {y})
      && q == Some(if Offered(ctx, ing.ns, backend.service, y.backendPort)
                   then PoolName(ing.ns + "-" + backend.service, backend.portText, y.backendPort) else DefaultPoolName)
      && t == Some(SettingsName(ing.ns + "-" + backend.service, backend.portText, y.backendPort, ing.name));
    ResolvesToOnce(ctx, ing.ns, backend, x, y);
  }

  lemma RuleDefaultOnce(ctx: Context, pairs: map<BackendId, PortPair>, i: nat, r: nat, p: Option<Id>, s: Option<Id>,
                        q: Option<Id>, t: Option<Id>)
    requires HttpRule(ctx, i, r) && RuleDefault(ctx, pairs, i, r, p, s) && RuleDefault(ctx, pairs, i, r, q, t)
    ensures p == q && s == t
  {
    DefaultPathIs(ctx, i, r);
    var ing, at := ctx.ingresses[i], LastDefaultPath(ctx, i, r, NumPaths(ctx, i, r));
    if 0 <= at {
      assert LastDefaultAt(ctx, i, r, at);
      if PathOf(i, r, at) in pairs {
        LeadToOnce(ctx, ing, ing.rules[r].http.value[at].backend, p, s, q, t);
      }
    } else if ing.backend.Some? && DefaultOf(i) in pairs {
      LeadToOnce(ctx, ing, ing.backend.value, p, s, q, t);
    }
  }

  // ---------------------------------------------------------------- the last rule that brings one decides

  /** The two parts of a backend reference. */
  datatype Half = PoolPart | SettingsPart

  function StockName(part: Half): Id {
    match part case PoolPart => DefaultPoolName case SettingsPart => DefaultSettingsName
  }

  /** What the rule brings: nothing when it redirects, and otherwise its default. */
  ghost predicate Brings(ctx: Context, env: Env, id: ListenerId, i: nat, r: nat, part: Half, x: Option<Id>)
    requires HttpRule(ctx, i, r)
  {
    if Redirected(ctx, env.redirects, i, id) then x == None
    else exists other :: PartDefault(ctx, env, i, r, part, x, other)
  }

  ghost predicate PartDefault(ctx: Context, env: Env, i: nat, r: nat, part: Half, x: Option<Id>, other: Option<Id>)
    requires HttpRule(ctx, i, r)
  {
    match part
    case PoolPart => RuleDefault(ctx, env.pairs, i, r, x, other)
    case SettingsPart => RuleDefault(ctx, env.pairs, i, r, other, x)
  }

  /** The rule asks for the listener, behind ingress `w`, and brings it something other than the stock one. */
  ghost predicate Decides(ctx: Context, env: Env, id: ListenerId, w: int, i: nat, r: nat, part: Half, x: Option<Id>) {
    Asks(ctx, i, r, id) && i > w && Brings(ctx, env, id, i, r, part, x) && x != Some(StockName(part))
  }

  /** The last rule to bring something decides; without any, `base` stays. */
  ghost predicate Decided(ctx: Context, env: Env, id: ListenerId, w: int, part: Half, base: Option<Id>, x: Option<Id>) {
    || (x == base && NobodyDecides(ctx, env, id, w, part))
    || (exists i: nat, r: nat ::
          Decides(ctx, env, id, w, i, r, part, x) && NoneDecidesBehind(ctx, env, id, w, part, i, r))
  }

  ghost predicate NobodyDecides(ctx: Context, env: Env, id: ListenerId, w: int, part: Half) {
    forall j: nat, q: nat, y :: !Decides(ctx, env, id, w, j, q, part, y)
  }

  ghost predicate NoneDecidesBehind(ctx: Context, env: Env, id: ListenerId, w: int, part: Half, i: nat, r: nat) {
    forall j: nat, q: nat, y :: Decides(ctx, env, id, w, j, q, part, y) ==> j < i || (j == i && q <= r)
  }

  function PartOf(part: Half, c: Props): Option<Id> {
    match part case PoolPart => c.pool case SettingsPart => c.settings
  }

  lemma ContributionBrings(ctx: Context, env: Env, id: ListenerId, i: nat, r: nat, part: Half)
    requires PairsResolve(ctx, env) && Serves(ctx, i, r, id)
    ensures HttpRule(ctx, i, r)
    ensures forall x :: Brings(ctx, env, id, i, r, part, x) <==>
      x == PartOf(part, StepContribution(ctx, env, OneRule(i, r), id))
  {
    ContributionDefault(ctx, env, id, i, r);
    if !Redirected(ctx, env.redirects, i, id) {
      var c := StepContribution(ctx, env, OneRule(i, r), id);
      assert PartDefault(ctx, env, i, r, part, PartOf(part, c), if part.PoolPart? then c.settings else c.pool);
      forall x, other | PartDefault(ctx, env, i, r, part, x, other) ensures x == PartOf(part, c) {
        match part
        case PoolPart => RuleDefaultOnce(ctx, env.pairs, i, r, x, other, c.pool, c.settings);
        case SettingsPart => RuleDefaultOnce(ctx, env.pairs, i, r, other, x, c.pool, c.settings);
      }
    }
  }

  function LastPart(part: Half, base: Option<Id>, cs: seq<Props>): Option<Id> {
    match part case PoolPart => LastPool(base, cs) case SettingsPart => LastSettings(base, cs)
  }

  /** Contributions redirect, or bring both parts. */
  ghost predicate Proper(cs: seq<Props>) {
    forall a :: 0 <= a < |cs| ==> ProperOne(cs[a])
  }

  ghost predicate ProperOne(c: Props) {
    if c.redirect.Some? then c.pool.None? && c.settings.None? else c.pool.Some? && c.settings.Some?
  }

  lemma {:induction false} LastPartAt(part: Half, base: Option<Id>, cs: seq<Props>) returns (a: int)
    requires Proper(cs)
    ensures -1 <= a < |cs|
    ensures a == -1 ==> LastPart(part, base, cs) == base
    ensures 0 <= a ==> LastPart(part, base, cs) == PartOf(part, cs[a]) != Some(StockName(part))
    ensures forall b :: a < b < |cs| ==> PartOf(part, cs[b]) == Some(StockName(part))
  {
    if cs == [] {
      return -1;
    }
    var n := |cs| - 1;
    if PartOf(part, cs[n]) != Some(StockName(part)) {
      return n;
    }
    a := LastPartAt(part, base, cs[..n]);
    assert forall b :: 0 <= b < n ==> cs[..n][b] == cs[b];
  }

  lemma ProperContributions(ctx: Context, env: Env, id: ListenerId, ks: seq<int>, cs: seq<Props>, w: int)
    requires PairsResolve(ctx, env) && Sifted(Brought(ctx, env, id, Steps(ctx)), w, ks, cs)
    ensures Proper(cs)
  {
    forall a | 0 <= a < |cs| ensures ProperOne(cs[a]) {
      assert Brought(ctx, env, id, Steps(ctx))[ks[a]] == Some(cs[a]);
      ContributionIsProper(ctx, env, id, Steps(ctx)[ks[a]]);
    }
  }

  lemma ContributionIsProper(ctx: Context, env: Env, id: ListenerId, s: Step)
    requires EnvFits(ctx, env) && StepServes(ctx, s, id)
    ensures ProperOne(StepContribution(ctx, env, s, id))
  {
  }

  /** The rule at place `ks[a]` among the steps, in the words of the ingresses. */
  lemma ContributorIs(ctx: Context, env: Env, id: ListenerId, at: int, ks: seq<int>, cs: seq<Props>, a: nat, part: Half)
    requires PairsResolve(ctx, env) && LastOverwrite(ctx, env, id, Steps(ctx), at)
    requires Sifted(Brought(ctx, env, id, Steps(ctx)), at, ks, cs) && a < |ks|
    ensures Steps(ctx)[ks[a]].OneRule?
    ensures var s, w := Steps(ctx)[ks[a]], if at == -1 then -1 else Steps(ctx)[at].i;
      && Asks(ctx, s.i, s.r, id) && s.i > w
      && forall x :: Brings(ctx, env, id, s.i, s.r, part, x) <==> x == PartOf(part, cs[a])
  {
    var s := Steps(ctx)[ks[a]];
    assert Brought(ctx, env, id, Steps(ctx))[ks[a]] == Some(cs[a]);
    ServesIff(ctx, s.i, s.r, id);
    ContributionBrings(ctx, env, id, s.i, s.r, part);
    assert ks[a] in ks;
    BehindOverwrite(ctx, env, id, at, ks[a]);
  }

  lemma DeciderContributes(ctx: Context, env: Env, id: ListenerId, at: int, ks: seq<int>, cs: seq<Props>, part: Half,
                           j: nat, q: nat, y: Option<Id>)
    returns (b: nat)
    requires PairsResolve(ctx, env) && LastOverwrite(ctx, env, id, Steps(ctx), at)
    requires Sifted(Brought(ctx, env, id, Steps(ctx)), at, ks, cs)
    requires Decides(ctx, env, id, if at == -1 then -1 else Steps(ctx)[at].i, j, q, part, y)
    ensures b < |ks| && Steps(ctx)[ks[b]] == OneRule(j, q) && PartOf(part, cs[b]) == y
  {
    ServesIff(ctx, j, q, id);
    AskerContributes(ctx, env, id, at, ks, cs, j, q);
    b :| 0 <= b < |ks| && Steps(ctx)[ks[b]] == OneRule(j, q);
    ContributorIs(ctx, env, id, at, ks, cs, b, part);
  }

  lemma NoneDecides(ctx: Context, env: Env, id: ListenerId, at: int, ks: seq<int>, cs: seq<Props>, part: Half, w: int)
    requires PairsResolve(ctx, env) && LastOverwrite(ctx, env, id, Steps(ctx), at)
    requires Sifted(Brought(ctx, env, id, Steps(ctx)), at, ks, cs)
    requires w == if at == -1 then -1 else Steps(ctx)[at].i
    requires forall b :: 0 <= b < |cs| ==> PartOf(part, cs[b]) == Some(StockName(part))
    ensures NobodyDecides(ctx, env, id, w, part)
  {
    forall j: nat, q: nat, y ensures !Decides(ctx, env, id, w, j, q, part, y) {
      if Decides(ctx, env, id, w, j, q, part, y) {
        var b := DeciderContributes(ctx, env, id, at, ks, cs, part, j, q, y);
      }
    }
  }

  lemma NoneBehind(ctx: Context, env: Env, id: ListenerId, at: int, ks: seq<int>, cs: seq<Props>, part: Half, a: nat,
                   w: int, i: nat, r: nat)
    requires PairsResolve(ctx, env) && LastOverwrite(ctx, env, id, Steps(ctx), at)
    requires Sifted(Brought(ctx, env, id, Steps(ctx)), at, ks, cs)
    requires w == if at == -1 then -1 else Steps(ctx)[at].i
    requires a < |cs| && Steps(ctx)[ks[a]] == OneRule(i, r)
    requires forall b :: a < b < |cs| ==> PartOf(part, cs[b]) == Some(StockName(part))
    ensures NoneDecidesBehind(ctx, env, id, w, part, i, r)
  {
    forall j: nat, q: nat, y | Decides(ctx, env, id, w, j, q, part, y) ensures j < i || (j == i && q <= r) {
      var b := DeciderContributes(ctx, env, id, at, ks, cs, part, j, q, y);
      assert b <= a;
      ContributorsSorted(ctx, ks, b, a, j, q, i, r);
    }
  }

  lemma ContributorsSorted(ctx: Context, ks: seq<int>, b: nat, a: nat, j: nat, q: nat, i: nat, r: nat)
    requires b <= a < |ks| && (forall x, y :: 0 <= x < y < |ks| ==> ks[x] < ks[y])
    requires 0 <= ks[b] && ks[a] < |Steps(ctx)|
    requires Steps(ctx)[ks[b]] == OneRule(j, q) && Steps(ctx)[ks[a]] == OneRule(i, r)
    ensures j < i || (j == i && q <= r)
  {
    if b < a { StepsSorted(ctx, |ctx.ingresses|, ks[b], ks[a]); }
  }

  lemma LastPartIsDecided(ctx: Context, env: Env, id: ListenerId, at: int, ks: seq<int>, cs: seq<Props>, part: Half,
                          base: Option<Id>, w: int)
    requires PairsResolve(ctx, env) && LastOverwrite(ctx, env, id, Steps(ctx), at)
    requires Sifted(Brought(ctx, env, id, Steps(ctx)), at, ks, cs) && Proper(cs)
    requires w == if at == -1 then -1 else Steps(ctx)[at].i
    ensures Decided(ctx, env, id, w, part, base, LastPart(part, base, cs))
  {
    var a := LastPartAt(part, base, cs);
    if a == -1 {
      NoneDecides(ctx, env, id, at, ks, cs, part, w);
    } else {
      ContributorIs(ctx, env, id, at, ks, cs, a, part);
      var s := Steps(ctx)[ks[a]];
      NoneBehind(ctx, env, id, at, ks, cs, part, a, w, s.i, s.r);
      assert Decides(ctx, env, id, w, s.i, s.r, part, PartOf(part, cs[a]));
    }
  }

  // ---------------------------------------------------------------- redirects

  /** Some rule behind ingress `w` that asks for the listener redirects it. */
  ghost predicate SomeRedirects(ctx: Context, env: Env, id: ListenerId, w: int) {
    exists i: nat, r: nat :: RuleRedirects(ctx, env, id, w, i, r)
  }

  ghost predicate RuleRedirects(ctx: Context, env: Env, id: ListenerId, w: int, i: nat, r: nat) {
    Asks(ctx, i, r, id) && i > w && Redirected(ctx, env.redirects, i, id)
  }

  lemma {:induction false} LastRedirectAt(cs: seq<Props>) returns (a: int)
    ensures -1 <= a < |cs|
    ensures a == -1 ==> LastRedirect(cs).None? && forall b :: 0 <= b < |cs| ==> cs[b].redirect.None?
    ensures 0 <= a ==> LastRedirect(cs) == cs[a].redirect && cs[a].redirect.Some?
  {
    if cs == [] {
      return -1;
    }
    var n := |cs| - 1;
    if cs[n].redirect.Some? {
      return n;
    }
    a := LastRedirectAt(cs[..n]);
    assert forall b :: 0 <= b < n ==> cs[..n][b] == cs[b];
  }

  lemma LastRedirectIs(ctx: Context, env: Env, id: ListenerId, at: int, ks: seq<int>, cs: seq<Props>)
    requires PairsResolve(ctx, env) && LastOverwrite(ctx, env, id, Steps(ctx), at)
    requires Sifted(Brought(ctx, env, id, Steps(ctx)), at, ks, cs)
    ensures LastRedirect(cs) ==
      if SomeRedirects(ctx, env, id, if at == -1 then -1 else Steps(ctx)[at].i)
      then Some(RedirectName(id.(port := 443))) else None
  {
    var w, steps := if at == -1 then -1 else Steps(ctx)[at].i, Steps(ctx);
    var a := LastRedirectAt(cs);
    if 0 <= a {
      ContributorRedirects(ctx, env, id, at, ks, cs, a);
      assert RuleRedirects(ctx, env, id, w, steps[ks[a]].i, steps[ks[a]].r);
    } else if i: nat, r: nat :| RuleRedirects(ctx, env, id, w, i, r) {
      ServesIff(ctx, i, r, id);
      AskerContributes(ctx, env, id, at, ks, cs, i, r);
      var b :| 0 <= b < |ks| && steps[ks[b]] == OneRule(i, r);
      ContributorRedirects(ctx, env, id, at, ks, cs, b);
    }
  }

  lemma ContributorRedirects(ctx: Context, env: Env, id: ListenerId, at: int, ks: seq<int>, cs: seq<Props>, a: nat)
    requires PairsResolve(ctx, env) && LastOverwrite(ctx, env, id, Steps(ctx), at)
    requires Sifted(Brought(ctx, env, id, Steps(ctx)), at, ks, cs) && a < |ks|
    ensures Steps(ctx)[ks[a]].OneRule?
    ensures var s, w := Steps(ctx)[ks[a]], if at == -1 then -1 else Steps(ctx)[at].i;
      && Asks(ctx, s.i, s.r, id) && s.i > w
      && cs[a].redirect ==
         if Redirected(ctx, env.redirects, s.i, id) then Some(RedirectName(id.(port := 443))) else None
  {
    ContributorIs(ctx, env, id, at, ks, cs, a, PoolPart);
    var s := Steps(ctx)[ks[a]];
    assert Brought(ctx, env, id, Steps(ctx))[ks[a]] == Some(cs[a]);
    ContributionDefault(ctx, env, id, s.i, s.r);
  }

  // ---------------------------------------------------------------- the defaults of a path map

  /** The pool that an ingress without rules names, whether or not endpoints offer it. */
  ghost predicate NamedBy(ctx: Context, w: int, pool: Option<Id>)
    requires 0 <= w < |ctx.ingresses| && ctx.ingresses[w].backend.Some?
  {
    var ing, backend := ctx.ingresses[w], ctx.ingresses[w].backend.value;
    exists pair ::
      && ResolvesTo(ctx, ing.ns, backend, {pair})
      && pool == Some(PoolName(ing.ns + "-" + backend.service, backend.portText, pair.backendPort))
  }

  /** The defaults of a listener's map, behind the ingress `w` that overwrote it last: the redirect if some
      rule redirects, and pool and settings as the last rules to bring them decide. */
  ghost predicate DefaultsAre(ctx: Context, env: Env, id: ListenerId, w: int, m: Props) {
    && OverwrittenLast(ctx, env.pairs, id, w)
    && m.redirect == (if SomeRedirects(ctx, env, id, w) then Some(RedirectName(id.(port := 443))) else None)
    && Decided(ctx, env, id, w, SettingsPart, Some(DefaultSettingsName), m.settings)
    && (if w == -1 then Decided(ctx, env, id, w, PoolPart, Some(DefaultPoolName), m.pool)
        else exists named :: NamedBy(ctx, w, named) && Decided(ctx, env, id, w, PoolPart, named, m.pool))
    && m.rewrite.None?
  }

  lemma BareIsNamed(ctx: Context, env: Env, i: int)
    requires PairsResolve(ctx, env) && NamesPool(ctx, env.pairs, i)
    ensures Overwrites(ctx, env, NoRules(i))
    ensures var m := BareProps(ctx, env, i);
      NamedBy(ctx, i, m.pool) && m.settings == Some(DefaultSettingsName) && m.redirect.None? && m.rewrite.None?
  {
    assert Resolves(ctx, DefaultOf(i), {env.pairs[DefaultOf(i)]});
  }

  lemma FlatDefaults(ctx: Context, env: Env, id: ListenerId)
    requires EnvFits(ctx, env) && MapAfter(ctx, env, Steps(ctx), id).Some?
    ensures var m, base, cs := MapAfter(ctx, env, Steps(ctx), id).value, BaseOf(ctx, env, Steps(ctx), id),
                               ContributionsTo(ctx, env, Steps(ctx), id);
      && m.redirect == LastRedirect(cs) && m.pool == LastPart(PoolPart, base.pool, cs)
      && m.settings == LastPart(SettingsPart, base.settings, cs) && m.rewrite == base.rewrite
  {
    MapAfterIsFlat(ctx, env, Steps(ctx), id);
    BaseFacts(ctx, env, Steps(ctx), id);
    MergeSeqIsFlat(BaseOf(ctx, env, Steps(ctx), id), ContributionsTo(ctx, env, Steps(ctx), id));
  }

  lemma AfterDefaults(ctx: Context, env: Env, id: ListenerId) returns (w: int)
    requires PairsResolve(ctx, env) && MapAfter(ctx, env, Steps(ctx), id).Some?
    ensures DefaultsAre(ctx, env, id, w, MapAfter(ctx, env, Steps(ctx), id).value)
  {
    var steps := Steps(ctx);
    var cs, base := ContributionsTo(ctx, env, steps, id), BaseOf(ctx, env, steps, id);
    var at, ks := Contributors(ctx, env, id, steps);
    w := if at == -1 then -1 else steps[at].i;
    FlatDefaults(ctx, env, id);
    LastOverwriteIs(ctx, env, id, at);
    ProperContributions(ctx, env, id, ks, cs, at);
    LastRedirectIs(ctx, env, id, at, ks, cs);
    LastPartIsDecided(ctx, env, id, at, ks, cs, PoolPart, base.pool, w);
    LastPartIsDecided(ctx, env, id, at, ks, cs, SettingsPart, base.settings, w);
    if at != -1 { BareIsNamed(ctx, env, w); }
  }

  lemma NobodyAsks(ctx: Context, env: Env, id: ListenerId)
    requires EnvFits(ctx, env) && !AnyMap(ctx, env)
    ensures forall i, r :: !Asks(ctx, i, r, id)
    ensures forall i :: !NamesPool(ctx, env.pairs, i)
  {
    MapIffAsked(ctx, env, id);
    forall i, r ensures !Asks(ctx, i, r, id) {
      ServesIff(ctx, i, r, id);
      assert Serves(ctx, i, r, id) ==> Requested(ctx, id);
    }
    MapIffAsked(ctx, env, DefaultListener());
    forall i ensures !NamesPool(ctx, env.pairs, i) {
      if NamesPool(ctx, env.pairs, i) {
        var k := OverwritingIngress(ctx, env, i);
        assert Overwritten(ctx, env, Steps(ctx), DefaultListener());
      }
    }
  }

  lemma EmptyDefaults(ctx: Context, env: Env, id: ListenerId)
    requires EnvFits(ctx, env) && !AnyMap(ctx, env)
    ensures DefaultsAre(ctx, env, id, -1, EMPTY)
  {
    NobodyAsks(ctx, env, id);
    assert NobodyDecides(ctx, env, id, -1, PoolPart) && NobodyDecides(ctx, env, id, -1, SettingsPart);
  }

  /** The defaults of every path map are those that the ingresses ask for. */
  lemma MapDefaults(ctx: Context, env: Env, maps: map<ListenerId, Props>, id: ListenerId) returns (w: int)
    requires PairsResolve(ctx, env) && PathMapsPass(ctx, env, maps) && id in maps
    ensures DefaultsAre(ctx, env, id, w, maps[id])
  {
    if AnyMap(ctx, env) || id != DefaultListener() {
      w := AfterDefaults(ctx, env, id);
    } else {
      w := -1;
      EmptyDefaults(ctx, env, id);
    }
  }

  // ---------------------------------------------------------------- where defaults go wrong

  ghost predicate NotBehind(j: nat, q: nat, i: nat, r: nat) {
    j < i || (j == i && q <= r)
  }

  /** A path map has both a default redirect and a default pool exactly when a rule that does not redirect
      brings a pool behind all rules that do. */
  lemma DefaultsClashIff(ctx: Context, env: Env, id: ListenerId, m: Props)
    requires DefaultsAre(ctx, env, id, -1, m)
    ensures m.redirect.Some? && m.pool.Some? <==>
      && SomeRedirects(ctx, env, id, -1)
      && (exists j: nat, q: nat, x ::
            && Decides(ctx, env, id, -1, j, q, PoolPart, Some(x))
            && forall i: nat, r: nat :: RuleRedirects(ctx, env, id, -1, i, r) ==> NotBehind(i, r, j, q))
  {
    forall i: nat, r: nat | RuleRedirects(ctx, env, id, -1, i, r)
      ensures Decides(ctx, env, id, -1, i, r, PoolPart, None)
    {
    }
    if m.redirect.Some? && m.pool.Some? {
      assert !NobodyDecides(ctx, env, id, -1, PoolPart) by {
        var i: nat, r: nat :| RuleRedirects(ctx, env, id, -1, i, r);
        assert Decides(ctx, env, id, -1, i, r, PoolPart, None);
      }
      var j: nat, q: nat :|
        Decides(ctx, env, id, -1, j, q, PoolPart, m.pool) && NoneDecidesBehind(ctx, env, id, -1, PoolPart, j, q);
      assert Decides(ctx, env, id, -1, j, q, PoolPart, Some(m.pool.value));
    }
    if j: nat, q: nat, x :|
      && Decides(ctx, env, id, -1, j, q, PoolPart, Some(x))
      && forall i: nat, r: nat :: RuleRedirects(ctx, env, id, -1, i, r) ==> NotBehind(i, r, j, q)
    {
      LastPoolNotRedirected(ctx, env, id, m, j, q, x);
    }
  }

  lemma LastPoolNotRedirected(ctx: Context, env: Env, id: ListenerId, m: Props, j: nat, q: nat, x: Id)
    requires DefaultsAre(ctx, env, id, -1, m) && Decides(ctx, env, id, -1, j, q, PoolPart, Some(x))
    requires forall i: nat, r: nat :: RuleRedirects(ctx, env, id, -1, i, r) ==> NotBehind(i, r, j, q)
    ensures m.pool.Some?
  {
    var i: nat, r: nat :|
      Decides(ctx, env, id, -1, i, r, PoolPart, m.pool) && NoneDecidesBehind(ctx, env, id, -1, PoolPart, i, r);
    assert !Redirected(ctx, env.redirects, i, id) by {
      if Redirected(ctx, env.redirects, i, id) { assert RuleRedirects(ctx, env, id, -1, i, r); }
    }
    BringsSome(ctx, env, id, i, r, m.pool);
  }

  /** A rule that does not redirect brings a pool. */
  lemma BringsSome(ctx: Context, env: Env, id: ListenerId, i: nat, r: nat, x: Option<Id>)
    requires HttpRule(ctx, i, r) && Brings(ctx, env, id, i, r, PoolPart, x) && !Redirected(ctx, env.redirects, i, id)
    ensures x.Some?
  {
    var other :| PartDefault(ctx, env, i, r, PoolPart, x, other);
    DefaultPathIs(ctx, i, r);
    var at := LastDefaultPath(ctx, i, r, NumPaths(ctx, i, r));
    if 0 <= at { assert LastDefaultAt(ctx, i, r, at); }
  }

  /** The default pool of one rule can come with the default settings of another: of two rules for a
      listener, the second has no endpoints and brings its settings but not its pool. */
  lemma DefaultsCanMix(ctx: Context, env: Env, id: ListenerId, m: Props, i: nat, r: nat, pool: Id, s: Option<Id>,
                       j: nat, q: nat, settings: Id)
    requires DefaultsAre(ctx, env, id, -1, m) && !SomeRedirects(ctx, env, id, -1)
    requires Asks(ctx, i, r, id) && RuleDefault(ctx, env.pairs, i, r, Some(pool), s) && pool != DefaultPoolName
    requires Asks(ctx, j, q, id) && RuleDefault(ctx, env.pairs, j, q, Some(DefaultPoolName), Some(settings))
    requires settings != DefaultSettingsName && !NotBehind(j, q, i, r)
    requires forall k: nat, l: nat :: Asks(ctx, k, l, id) ==> (k == i && l == r) || (k == j && l == q)
    ensures m.pool == Some(pool) && m.settings == Some(settings)
  {
    assert !RuleRedirects(ctx, env, id, -1, i, r) && !RuleRedirects(ctx, env, id, -1, j, q);
    OnlyBrings(ctx, env, id, i, r, Some(pool), s);
    OnlyBrings(ctx, env, id, j, q, Some(DefaultPoolName), Some(settings));
    assert Decides(ctx, env, id, -1, i, r, PoolPart, Some(pool));
    assert Decides(ctx, env, id, -1, j, q, SettingsPart, Some(settings));
    MixedPool(ctx, env, id, m, i, r, pool, j, q);
    MixedSettings(ctx, env, id, m, i, r, j, q, settings);
  }

  lemma OnlyBrings(ctx: Context, env: Env, id: ListenerId, i: nat, r: nat, p: Option<Id>, s: Option<Id>)
    requires HttpRule(ctx, i, r) && RuleDefault(ctx, env.pairs, i, r, p, s) && !Redirected(ctx, env.redirects, i, id)
    ensures forall x :: Brings(ctx, env, id, i, r, PoolPart, x) <==> x == p
    ensures forall x :: Brings(ctx, env, id, i, r, SettingsPart, x) <==> x == s
  {
    assert PartDefault(ctx, env, i, r, PoolPart, p, s) && PartDefault(ctx, env, i, r, SettingsPart, s, p);
    forall x, other | PartDefault(ctx, env, i, r, PoolPart, x, other) ensures x == p {
      RuleDefaultOnce(ctx, env.pairs, i, r, x, other, p, s);
    }
    forall x, other | PartDefault(ctx, env, i, r, SettingsPart, x, other) ensures x == s {
      RuleDefaultOnce(ctx, env.pairs, i, r, other, x, p, s);
    }
  }

  lemma MixedPool(ctx: Context, env: Env, id: ListenerId, m: Props, i: nat, r: nat, pool: Id, j: nat, q: nat)
    requires Decided(ctx, env, id, -1, PoolPart, Some(DefaultPoolName), m.pool)
    requires HttpRule(ctx, i, r) && forall x :: Brings(ctx, env, id, i, r, PoolPart, x) <==> x == Some(pool)
    requires HttpRule(ctx, j, q) && forall x :: Brings(ctx, env, id, j, q, PoolPart, x) <==> x == Some(DefaultPoolName)
    requires Decides(ctx, env, id, -1, i, r, PoolPart, Some(pool))
    requires forall k: nat, l: nat :: Asks(ctx, k, l, id) ==> (k == i && l == r) || (k == j && l == q)
    ensures m.pool == Some(pool)
  {
    var k: nat, l: nat :| Decides(ctx, env, id, -1, k, l, PoolPart, m.pool);
    assert Asks(ctx, k, l, id);
  }

  lemma MixedSettings(ctx: Context, env: Env, id: ListenerId, m: Props, i: nat, r: nat, j: nat, q: nat, settings: Id)
    requires Decided(ctx, env, id, -1, SettingsPart, Some(DefaultSettingsName), m.settings)
    requires HttpRule(ctx, j, q) && forall x :: Brings(ctx, env, id, j, q, SettingsPart, x) <==> x == Some(settings)
    requires Decides(ctx, env, id, -1, j, q, SettingsPart, Some(settings)) && !NotBehind(j, q, i, r)
    requires forall k: nat, l: nat :: Asks(ctx, k, l, id) ==> (k == i && l == r) || (k == j && l == q)
    ensures m.settings == Some(settings)
  {
    var k: nat, l: nat :| Decides(ctx, env, id, -1, k, l, SettingsPart, m.settings)
      && NoneDecidesBehind(ctx, env, id, -1, SettingsPart, k, l);
    assert Asks(ctx, k, l, id);
  }
}
