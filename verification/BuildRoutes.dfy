/**
 What the path rules of a build are, in the words of the ingresses: which path each one is for, where it
 leads, in which order they come, and which paths get none (pkg/appgw/requestroutingrules.go).
 */
module BuildRoutes {
  import opened Iteration
  import opened Resources
  import opened RoutingTypes
  import opened IngressListeners
  import opened RequestedListeners
  import opened Backends
  import opened PathMaps
  import opened BuildSpec
  import opened BuildDangling

  // ---------------------------------------------------------------- where a path leads

  /** Some endpoint of the service offers the port over TCP. */
  ghost predicate Offered(ctx: Context, ns: string, service: string, port: int) {
    var key := ns + "/" + service;
    && key in ctx.endpoints
    && exists i, j :: 0 <= i < |ctx.endpoints[key]| && 0 <= j < |ctx.endpoints[key][i]|
                      && ctx.endpoints[key][i][j].tcp && ctx.endpoints[key][i][j].port == port
  }

  /** Pool and settings lead to the backend as the ingress writes it: settings named for service, port and
      ingress, and the pool of that service and port, or the default pool when no endpoint offers the port. */
  ghost predicate LeadTo(ctx: Context, ing: Ingress, backend: Backend, pool: Option<Id>, settings: Option<Id>) {
    exists pair ::
      && ResolvesTo(ctx, ing.ns, backend, {pair})
      && pool == Some(if Offered(ctx, ing.ns, backend.service, pair.backendPort)
                      then PoolName(ing.ns + "-" + backend.service, backend.portText, pair.backendPort)
                      else DefaultPoolName)
      && settings ==
         Some(SettingsName(ing.ns + "-" + backend.service, backend.portText, pair.backendPort, ing.name))
  }

  /** Ingress `i` redirects the listener: it asks for it, the listener serves HTTP, and the redirect to the
      HTTPS listener with the same hosts and IP kind exists. */
  ghost predicate Redirected(ctx: Context, redirects: set<Id>, i: int, id: ListenerId)
    requires 0 <= i < |ctx.ingresses|
  {
    ctx.ingresses[i].sslRedirect && id.port == 80 && RedirectName(id.(port := 443)) in redirects
  }

  /** Position of a path among the ingresses. */
  datatype Spot = Spot(i: nat, r: nat, p: nat)

  ghost predicate Before(a: Spot, b: Spot) {
    a.i < b.i || (a.i == b.i && (a.r < b.r || (a.r == b.r && a.p < b.p)))
  }

  ghost predicate IsSpot(ctx: Context, s: Spot) {
    HttpRule(ctx, s.i, s.r) && s.p < |ctx.ingresses[s.i].rules[s.r].http.value|
  }

  /** The path rule is the one for the path written there. */
  ghost predicate RouteFor(ctx: Context, redirects: set<Id>, id: ListenerId, s: Spot, pr: PRule)
    requires IsSpot(ctx, s)
  {
    var ing, path := ctx.ingresses[s.i], ctx.ingresses[s.i].rules[s.r].http.value[s.p];
    && pr.name == PathRuleName(ing.ns, ing.name, s.p) && pr.paths == Some([path.path]) && pr.firewall == ing.wafPolicy
    && if Redirected(ctx, redirects, s.i, id)
       then pr.redirect == Some(RedirectName(id.(port := 443))) && pr.pool.None? && pr.settings.None?
       else pr.redirect.None? && LeadTo(ctx, ing, path.backend, pr.pool, pr.settings)
  }

  /** The path gets a rule: its rule asks for the listener, it is none of the three default paths, and it is
      redirected or its backend has a port pair. */
  ghost predicate GetsRoute(ctx: Context, env: Env, id: ListenerId, s: Spot) {
    && IsSpot(ctx, s) && Asks(ctx, s.i, s.r, id)
    && ctx.ingresses[s.i].rules[s.r].http.value[s.p].path !in ["", "/", "/*"]
    && (Redirected(ctx, env.redirects, s.i, id) || PathOf(s.i, s.r, s.p) in env.pairs)
  }

  // ---------------------------------------------------------------- one path, one rule

  lemma PortTellsProtocol(ctx: Context, i: nat, r: nat, id: ListenerId)
    requires Serves(ctx, i, r, id)
    ensures HttpRule(ctx, i, r)
    ensures ProcessRule(ctx, ctx.ingresses[i], ctx.ingresses[i].rules[r])[id].protocol ==
      if id.port == 80 then HTTP else HTTPS
  {
    ProcessRuleShape(ctx, ctx.ingresses[i], ctx.ingresses[i].rules[r]);
  }

  /** Pool and settings made for a backend lead to it. */
  lemma MadeLeadTo(ctx: Context, b: BackendId, pair: PortPair)
    requires Exists(ctx, b) && Resolves(ctx, b, {pair})
    ensures LeadTo(ctx, IngressOf(ctx, b), BackendOf(ctx, b), Some(PoolFor(ctx, b, pair)),
                   Some(SettingFor(ctx, b, pair).name))
  {
    var ing, backend := IngressOf(ctx, b), BackendOf(ctx, b);
    assert HasEndpoints(ctx, b, pair) <==> Offered(ctx, ing.ns, backend.service, pair.backendPort) by {
      OfferedIs(ctx, b, pair);
    }
  }

  lemma OfferedIs(ctx: Context, b: BackendId, pair: PortPair)
    requires Exists(ctx, b)
    ensures HasEndpoints(ctx, b, pair) <==>
      Offered(ctx, ctx.ingresses[b.ingress].ns, BackendOf(ctx, b).service, pair.backendPort)
  {
    var key := ServiceKey(ctx, b);
    if HasEndpoints(ctx, b, pair) {
      var ports :| ports in ctx.endpoints[key] && Offers(ports, pair.backendPort);
      var i :| 0 <= i < |ctx.endpoints[key]| && ctx.endpoints[key][i] == ports;
    }
    if key in ctx.endpoints {
      forall i, j | 0 <= i < |ctx.endpoints[key]| && 0 <= j < |ctx.endpoints[key][i]|
                    && ctx.endpoints[key][i][j].tcp && ctx.endpoints[key][i][j].port == pair.backendPort
        ensures HasEndpoints(ctx, b, pair)
      {
        assert ctx.endpoints[key][i] in ctx.endpoints[key];
      }
    }
  }

  ghost predicate PairsResolve(ctx: Context, env: Env) {
    EnvFits(ctx, env) && forall b :: b in env.pairs ==> Resolves(ctx, b, {env.pairs[b]})
  }

  lemma OnePathRule(ctx: Context, env: Env, id: ListenerId, s: Spot)
    requires PairsResolve(ctx, env) && IsSpot(ctx, s) && Serves(ctx, s.i, s.r, id)
    ensures var pr := PathRuleAt(ctx, env, s.i, s.r, id, StepProtocol(ctx, OneRule(s.i, s.r), id), s.p);
      (pr.Some? <==> GetsRoute(ctx, env, id, s)) && (pr.Some? ==> RouteFor(ctx, env.redirects, id, s, pr.value))
  {
    PortTellsProtocol(ctx, s.i, s.r, id);
    ServesIff(ctx, s.i, s.r, id);
    var b := PathOf(s.i, s.r, s.p);
    if b in env.pairs {
      MadeLeadTo(ctx, b, env.pairs[b]);
    }
  }

  // ---------------------------------------------------------------- lists of routes

  /** The path rule of every path that gets one. */
  ghost function RouteTable(ctx: Context, env: Env, id: ListenerId): imap<Spot, PRule>
    requires EnvFits(ctx, env)
  {
    imap s: Spot | IsSpot(ctx, s) && Serves(ctx, s.i, s.r, id)
                   && PathRuleAt(ctx, env, s.i, s.r, id, StepProtocol(ctx, OneRule(s.i, s.r), id), s.p).Some?
      :: PathRuleAt(ctx, env, s.i, s.r, id, StepProtocol(ctx, OneRule(s.i, s.r), id), s.p).value
  }

  /** The rules are those of the spots, which come in order. */
  ghost predicate Listed(table: imap<Spot, PRule>, rules: seq<PRule>, spots: seq<Spot>) {
    && |rules| == |spots|
    && (forall a, b :: 0 <= a < b < |spots| ==> Before(spots[a], spots[b]))
    && (forall a :: 0 <= a < |spots| ==> spots[a] in table && table[spots[a]] == rules[a])
  }

  lemma ListedConcat(table: imap<Spot, PRule>, rules: seq<PRule>, spots: seq<Spot>, more: seq<PRule>, ends: seq<Spot>)
    requires Listed(table, rules, spots) && Listed(table, more, ends)
    requires forall a, b :: a in spots && b in ends ==> Before(a, b)
    ensures Listed(table, rules + more, spots + ends)
  {
    var all := spots + ends;
    forall a, b | 0 <= a < b < |all| ensures Before(all[a], all[b]) {
      if a < |spots| <= b {
        assert all[a] == spots[a] && all[b] == ends[b - |spots|];
      }
    }
  }

  /** The lists of `parts` one after the other are listed if each is and they come in order. */
  lemma {:induction false} ListedParts(table: imap<Spot, PRule>, parts: seq<seq<PRule>>, spots: seq<seq<Spot>>)
    requires |parts| == |spots| && forall a :: 0 <= a < |parts| ==> Listed(table, parts[a], spots[a])
    requires forall a, b, x, y :: 0 <= a < b < |spots| && x in spots[a] && y in spots[b] ==> Before(x, y)
    ensures Listed(table, Flatten(parts), Flatten(spots))
    ensures forall x :: x in Flatten(spots) <==> exists a :: 0 <= a < |spots| && x in spots[a]
  {
    if parts != [] {
      var n := |parts| - 1;
      ListedParts(table, parts[..n], spots[..n]);
      forall x, y | x in Flatten(spots[..n]) && y in spots[n] ensures Before(x, y) {
        var a :| 0 <= a < n && x in spots[..n][a];
        assert x in spots[a];
      }
      ListedConcat(table, Flatten(parts[..n]), Flatten(spots[..n]), parts[n], spots[n]);
    }
  }

  // ---------------------------------------------------------------- the routes of one rule

  ghost function PathRuleOptions(ctx: Context, env: Env, i: nat, r: nat, id: ListenerId, protocol: Protocol, n: nat)
    : (os: seq<Option<PRule>>)
    requires EnvFits(ctx, env) && HttpRule(ctx, i, r) && n <= NumPaths(ctx, i, r)
    ensures |os| == n
    ensures forall p :: 0 <= p < n ==> os[p] == PathRuleAt(ctx, env, i, r, id, protocol, p)
  {
    if n == 0 then []
    else PathRuleOptions(ctx, env, i, r, id, protocol, n - 1) + [PathRuleAt(ctx, env, i, r, id, protocol, n - 1)]
  }

  lemma {:induction false} RulePicks(ctx: Context, env: Env, i: nat, r: nat, id: ListenerId, protocol: Protocol, n: nat)
    returns (ps: seq<int>)
    requires EnvFits(ctx, env) && HttpRule(ctx, i, r) && n <= NumPaths(ctx, i, r)
    ensures Sifted(PathRuleOptions(ctx, env, i, r, id, protocol, n), -1, ps,
                   PathRulesUpTo(ctx, env, i, r, id, protocol, n))
  {
    ps := [];
    if n > 0 {
      ps := RulePicks(ctx, env, i, r, id, protocol, n - 1);
      var last := PathRuleAt(ctx, env, i, r, id, protocol, n - 1);
      SiftedSnoc(PathRuleOptions(ctx, env, i, r, id, protocol, n - 1), last, -1, ps,
                 PathRulesUpTo(ctx, env, i, r, id, protocol, n - 1));
      if last.Some? { ps := ps + [n - 1]; }
    }
  }

  /** The table says of rule `r` of ingress `i` what the options say. */
  ghost predicate TableSays(table: imap<Spot, PRule>, i: nat, r: nat, os: seq<Option<PRule>>) {
    forall s: Spot :: s.i == i && s.r == r ==>
      && (s in table <==> s.p < |os| && os[s.p].Some?)
      && (s in table ==> os[s.p] == Some(table[s]))
  }

  ghost function SpotsAt(i: nat, r: nat, ps: seq<int>): (spots: seq<Spot>)
    requires forall a :: 0 <= a < |ps| ==> 0 <= ps[a]
    ensures |spots| == |ps| && forall a :: 0 <= a < |ps| ==> spots[a] == Spot(i, r, ps[a])
  {
    seq(|ps|, a requires 0 <= a < |ps| => Spot(i, r, ps[a]))
  }

  lemma SiftedIsListed(table: imap<Spot, PRule>, i: nat, r: nat, os: seq<Option<PRule>>, ps: seq<int>,
                       rules: seq<PRule>)
    requires TableSays(table, i, r, os) && Sifted(os, -1, ps, rules)
    ensures Listed(table, rules, SpotsAt(i, r, ps))
    ensures forall s :: s in SpotsAt(i, r, ps) <==> s in table && s.i == i && s.r == r
  {
    var spots := SpotsAt(i, r, ps);
    forall s | s in table && s.i == i && s.r == r ensures s in spots {
      assert s.p in ps;
      var a :| 0 <= a < |ps| && ps[a] == s.p;
      assert spots[a] == s;
    }
  }

  lemma TableOfRule(ctx: Context, env: Env, id: ListenerId, i: nat, r: nat)
    requires EnvFits(ctx, env) && Serves(ctx, i, r, id) && HttpRule(ctx, i, r)
    ensures TableSays(RouteTable(ctx, env, id), i, r,
                      PathRuleOptions(ctx, env, i, r, id, StepProtocol(ctx, OneRule(i, r), id), NumPaths(ctx, i, r)))
  {
  }

  /** The routes of one rule, listed. */
  lemma StepRoutes(ctx: Context, env: Env, id: ListenerId, step: Step) returns (spots: seq<Spot>)
    requires EnvFits(ctx, env) && StepServes(ctx, step, id)
    ensures Listed(RouteTable(ctx, env, id), RulesIn(StepContribution(ctx, env, step, id)), spots)
    ensures forall s :: s in spots <==> s in RouteTable(ctx, env, id) && s.i == step.i && s.r == step.r
  {
    var i, r, protocol := step.i, step.r, StepProtocol(ctx, step, id);
    var n := NumPaths(ctx, i, r);
    var ps := RulePicks(ctx, env, i, r, id, protocol, n);
    TableOfRule(ctx, env, id, i, r);
    SiftedIsListed(RouteTable(ctx, env, id), i, r, PathRuleOptions(ctx, env, i, r, id, protocol, n), ps,
                   PathRulesUpTo(ctx, env, i, r, id, protocol, n));
    spots := SpotsAt(i, r, ps);
  }

  // ---------------------------------------------------------------- the steps that contribute

  /** Step `w` is the last to overwrite the listener's map; -1 when none does. */
  ghost predicate LastOverwrite(ctx: Context, env: Env, id: ListenerId, steps: seq<Step>, w: int) {
    if w == -1 then !Overwritten(ctx, env, steps, id)
    else
      && id == DefaultListener() && 0 <= w < |steps| && Overwrites(ctx, env, steps[w])
      && forall k :: w < k < |steps| ==> !Overwrites(ctx, env, steps[k])
  }

  /** What each step brings the listener. */
  ghost function Brought(ctx: Context, env: Env, id: ListenerId, steps: seq<Step>): (bs: seq<Option<Props>>)
    requires EnvFits(ctx, env)
    ensures |bs| == |steps|
    ensures forall k :: 0 <= k < |steps| ==>
      bs[k] == if StepServes(ctx, steps[k], id) then Some(StepContribution(ctx, env, steps[k], id)) else None
  {
    if steps == [] then []
    else
      var s := steps[|steps| - 1];
      Brought(ctx, env, id, steps[..|steps| - 1])
      + [if StepServes(ctx, s, id) then Some(StepContribution(ctx, env, s, id)) else None]
  }

  lemma {:induction false} Contributors(ctx: Context, env: Env, id: ListenerId, steps: seq<Step>)
    returns (w: int, ks: seq<int>)
    requires EnvFits(ctx, env)
    ensures LastOverwrite(ctx, env, id, steps, w)
    ensures BaseOf(ctx, env, steps, id) == if w == -1 then FRESH else BareProps(ctx, env, steps[w].i)
    ensures Sifted(Brought(ctx, env, id, steps), w, ks, ContributionsTo(ctx, env, steps, id))
  {
    if steps == [] {
      return -1, [];
    }
    var n := |steps| - 1;
    if Overwrites(ctx, env, steps[n]) && id == DefaultListener() {
      return n, [];
    }
    w, ks := Contributors(ctx, env, id, steps[..n]);
    StillLast(ctx, env, id, steps, w);
    var b := Brought(ctx, env, id, steps)[n];
    SiftedSnoc(Brought(ctx, env, id, steps[..n]), b, w, ks, ContributionsTo(ctx, env, steps[..n], id));
    if b.Some? { ks := ks + [n]; }
  }

  lemma StillLast(ctx: Context, env: Env, id: ListenerId, steps: seq<Step>, w: int)
    requires steps != [] && LastOverwrite(ctx, env, id, steps[..|steps| - 1], w)
    requires !(Overwrites(ctx, env, steps[|steps| - 1]) && id == DefaultListener())
    ensures LastOverwrite(ctx, env, id, steps, w)
  {
    var n := |steps| - 1;
    OverwrittenSnoc(ctx, env, steps, id);
    assert forall k :: 0 <= k < n ==> steps[..n][k] == steps[k];
  }

  /** Steps come in the order of ingresses and rules. */
  lemma {:induction false} StepsSorted(ctx: Context, n: nat, p: nat, q: nat)
    requires n <= |ctx.ingresses| && p < q < |StepsUpTo(ctx, n)|
    ensures StepBefore(StepsUpTo(ctx, n)[p], StepsUpTo(ctx, n)[q])
  {
    StepsInOrder(ctx, n, p, q);
    var before, own := StepsUpTo(ctx, n - 1), StepsOf(ctx, n - 1);
    assert StepsUpTo(ctx, n) == before + own;
    if q < |before| {
      StepsSorted(ctx, n - 1, p, q);
    } else if p < |before| {
      assert before[p] in before;
      StepsAre(ctx, n - 1, before[p]);
    }
  }

  // ---------------------------------------------------------------- the routes of a listener

  ghost function RulesOfAll(cs: seq<Props>): (parts: seq<seq<PRule>>)
    ensures |parts| == |cs| && forall a :: 0 <= a < |cs| ==> parts[a] == RulesIn(cs[a])
  {
    seq(|cs|, a requires 0 <= a < |cs| => RulesIn(cs[a]))
  }

  lemma {:induction false} AllRulesAreFlat(cs: seq<Props>)
    ensures AllRules(cs) == Flatten(RulesOfAll(cs))
  {
    if cs != [] {
      AllRulesAreFlat(cs[..|cs| - 1]);
      assert RulesOfAll(cs)[..|cs| - 1] == RulesOfAll(cs[..|cs| - 1]);
    }
  }

  /** The spots of each contributing step. */
  ghost predicate SpotsOfSteps(table: imap<Spot, PRule>, steps: seq<Step>, ks: seq<int>, cs: seq<Props>,
                               parts: seq<seq<Spot>>) {
    && |parts| == |ks| == |cs| && (forall a :: 0 <= a < |ks| ==> 0 <= ks[a] < |steps|)
    && (forall a :: 0 <= a < |parts| ==> Listed(table, RulesIn(cs[a]), parts[a]))
    && (forall a, s :: 0 <= a < |parts| ==> (s in parts[a] <==> s in table && steps[ks[a]] == OneRule(s.i, s.r)))
  }

  lemma {:induction false} AllStepRoutes(ctx: Context, env: Env, id: ListenerId, steps: seq<Step>, ks: seq<int>,
                                         cs: seq<Props>)
    returns (parts: seq<seq<Spot>>)
    requires EnvFits(ctx, env) && |cs| == |ks|
    requires forall a :: 0 <= a < |ks| ==>
      0 <= ks[a] < |steps| && Brought(ctx, env, id, steps)[ks[a]] == Some(cs[a])
    ensures SpotsOfSteps(RouteTable(ctx, env, id), steps, ks, cs, parts)
  {
    parts := [];
    if ks != [] {
      var n := |ks| - 1;
      parts := AllStepRoutes(ctx, env, id, steps, ks[..n], cs[..n]);
      var own := StepRoutes(ctx, env, id, steps[ks[n]]);
      SpotsSnoc(RouteTable(ctx, env, id), steps, ks, cs, parts, own);
      parts := parts + [own];
    }
  }

  lemma SpotsSnoc(table: imap<Spot, PRule>, steps: seq<Step>, ks: seq<int>, cs: seq<Props>, parts: seq<seq<Spot>>,
                  own: seq<Spot>)
    requires |ks| == |cs| > 0 && SpotsOfSteps(table, steps, ks[..|ks| - 1], cs[..|ks| - 1], parts)
    requires 0 <= ks[|ks| - 1] < |steps| && steps[ks[|ks| - 1]].OneRule?
    requires Listed(table, RulesIn(cs[|ks| - 1]), own)
    requires forall s :: s in own <==> s in table && s.i == steps[ks[|ks| - 1]].i && s.r == steps[ks[|ks| - 1]].r
    ensures SpotsOfSteps(table, steps, ks, cs, parts + [own])
  {
    var n, all := |ks| - 1, parts + [own];
    forall a | 0 <= a < |all| ensures 0 <= ks[a] < |steps| && Listed(table, RulesIn(cs[a]), all[a]) {
      if a < n { assert ks[..n][a] == ks[a] && cs[..n][a] == cs[a] && all[a] == parts[a]; }
    }
    forall a, s | 0 <= a < |all| ensures s in all[a] <==> s in table && steps[ks[a]] == OneRule(s.i, s.r) {
      if a < n { assert ks[..n][a] == ks[a] && all[a] == parts[a]; }
    }
  }

  ghost predicate StepBefore(a: Step, b: Step) {
    a.i < b.i || (a.i == b.i && a.OneRule? && b.OneRule? && a.r < b.r)
  }

  lemma PartsInOrder(table: imap<Spot, PRule>, steps: seq<Step>, ks: seq<int>, cs: seq<Props>, parts: seq<seq<Spot>>)
    requires SpotsOfSteps(table, steps, ks, cs, parts)
    requires forall a, b :: 0 <= a < b < |ks| ==> StepBefore(steps[ks[a]], steps[ks[b]])
    ensures Listed(table, AllRules(cs), Flatten(parts))
    ensures forall s :: s in Flatten(parts) <==> exists a :: 0 <= a < |parts| && s in parts[a]
  {
    forall a, b, x, y | 0 <= a < b < |parts| && x in parts[a] && y in parts[b] ensures Before(x, y) {
      assert steps[ks[a]] == OneRule(x.i, x.r) && steps[ks[b]] == OneRule(y.i, y.r);
    }
    AllRulesAreFlat(cs);
    ListedParts(table, RulesOfAll(cs), parts);
  }

  /** Ingress `w` is the last to overwrite the listener's map, which only an ingress without rules does, and
      only to the default listener's; -1 when there is none. */
  ghost predicate OverwrittenLast(ctx: Context, pairs: map<BackendId, PortPair>, id: ListenerId, w: int) {
    if w == -1 then IsDefault(id) ==> forall i :: !NamesPool(ctx, pairs, i)
    else IsDefault(id) && NamesPool(ctx, pairs, w) && forall i :: NamesPool(ctx, pairs, i) ==> i <= w
  }

  lemma OverwritingStep(ctx: Context, env: Env, s: Step)
    requires s in Steps(ctx)
    ensures Overwrites(ctx, env, s) <==> s.NoRules? && NamesPool(ctx, env.pairs, s.i)
  {
    StepsAre(ctx, |ctx.ingresses|, s);
  }

  lemma OverwritingIngress(ctx: Context, env: Env, i: int) returns (k: int)
    requires NamesPool(ctx, env.pairs, i)
    ensures 0 <= k < |Steps(ctx)| && Steps(ctx)[k] == NoRules(i) && Overwrites(ctx, env, Steps(ctx)[k])
  {
    StepsAre(ctx, |ctx.ingresses|, NoRules(i));
    k :| 0 <= k < |Steps(ctx)| && Steps(ctx)[k] == NoRules(i);
  }

  /** The last overwriting step, seen from the ingresses. */
  lemma LastOverwriteIs(ctx: Context, env: Env, id: ListenerId, w: int)
    requires LastOverwrite(ctx, env, id, Steps(ctx), w)
    ensures OverwrittenLast(ctx, env.pairs, id, if w == -1 then -1 else Steps(ctx)[w].i)
  {
    var steps := Steps(ctx);
    DefaultIs(id);
    if w >= 0 {
      OverwritingStep(ctx, env, steps[w]);
    }
    forall i | NamesPool(ctx, env.pairs, i) && IsDefault(id) ensures w >= 0 && i <= steps[w].i {
      var k := OverwritingIngress(ctx, env, i);
      if 0 <= k < w { StepsSorted(ctx, |ctx.ingresses|, k, w); }
    }
  }

  /** A serving step comes behind the last overwriting one exactly when its ingress does. */
  lemma BehindOverwrite(ctx: Context, env: Env, id: ListenerId, w: int, k: int)
    requires LastOverwrite(ctx, env, id, Steps(ctx), w) && 0 <= k < |Steps(ctx)| && Steps(ctx)[k].OneRule?
    ensures w < k <==> (if w == -1 then -1 else Steps(ctx)[w].i) < Steps(ctx)[k].i
  {
    if 0 <= w < k {
      StepsSorted(ctx, |ctx.ingresses|, w, k);
    } else if k < w {
      StepsSorted(ctx, |ctx.ingresses|, k, w);
    }
  }

  lemma TableIs(ctx: Context, env: Env, id: ListenerId, s: Spot)
    requires PairsResolve(ctx, env)
    ensures s in RouteTable(ctx, env, id) <==> GetsRoute(ctx, env, id, s)
    ensures s in RouteTable(ctx, env, id) ==> RouteFor(ctx, env.redirects, id, s, RouteTable(ctx, env, id)[s])
  {
    ServesIff(ctx, s.i, s.r, id);
    if IsSpot(ctx, s) && Serves(ctx, s.i, s.r, id) {
      OnePathRule(ctx, env, id, s);
    }
  }

  /** A rule that asks for the listener is one of the contributing steps, unless it stands before the
      overwriting ingress. */
  lemma AskerContributes(ctx: Context, env: Env, id: ListenerId, w: int, ks: seq<int>, cs: seq<Props>, i: nat, r: nat)
    requires EnvFits(ctx, env) && LastOverwrite(ctx, env, id, Steps(ctx), w)
    requires Sifted(Brought(ctx, env, id, Steps(ctx)), w, ks, cs) && Serves(ctx, i, r, id)
    ensures (exists a :: 0 <= a < |ks| && Steps(ctx)[ks[a]] == OneRule(i, r)) <==>
      i > (if w == -1 then -1 else Steps(ctx)[w].i)
  {
    var steps, step := Steps(ctx), OneRule(i, r);
    StepsAre(ctx, |ctx.ingresses|, step);
    forall k | 0 <= k < |steps| && steps[k] == step
      ensures k in ks <==> i > (if w == -1 then -1 else steps[w].i)
    {
      BehindOverwrite(ctx, env, id, w, k);
    }
    var k :| 0 <= k < |steps| && steps[k] == step;
    if k in ks {
      var a :| 0 <= a < |ks| && ks[a] == k;
    }
  }

  /** The path rules of a listener's map are those of the paths that get one, in the order in which they are
      written; paths before an overwriting ingress get none. */
  ghost predicate RoutesAre(ctx: Context, env: Env, id: ListenerId, rules: seq<PRule>, w: int, spots: seq<Spot>) {
    && OverwrittenLast(ctx, env.pairs, id, w)
    && |rules| == |spots|
    && (forall a, b :: 0 <= a < b < |spots| ==> Before(spots[a], spots[b]))
    && (forall s :: s in spots <==> GetsRoute(ctx, env, id, s) && s.i > w)
    && (forall a :: 0 <= a < |spots| ==> IsSpot(ctx, spots[a]) && RouteFor(ctx, env.redirects, id, spots[a], rules[a]))
  }

  lemma ListedRoutes(ctx: Context, env: Env, id: ListenerId, rules: seq<PRule>, w: int, spots: seq<Spot>)
    requires PairsResolve(ctx, env) && Listed(RouteTable(ctx, env, id), rules, spots)
    requires OverwrittenLast(ctx, env.pairs, id, w)
    requires forall s :: s in spots <==> GetsRoute(ctx, env, id, s) && s.i > w
    ensures RoutesAre(ctx, env, id, rules, w, spots)
  {
    forall a | 0 <= a < |spots| ensures IsSpot(ctx, spots[a]) && RouteFor(ctx, env.redirects, id, spots[a], rules[a]) {
      TableIs(ctx, env, id, spots[a]);
    }
  }

  lemma StepsRoutes(ctx: Context, env: Env, id: ListenerId) returns (w: int, spots: seq<Spot>)
    requires PairsResolve(ctx, env)
    ensures RoutesAre(ctx, env, id, AllRules(ContributionsTo(ctx, env, Steps(ctx), id)), w, spots)
  {
    var steps := Steps(ctx);
    var cs := ContributionsTo(ctx, env, steps, id);
    var at, ks := Contributors(ctx, env, id, steps);
    var parts := AllStepRoutes(ctx, env, id, steps, ks, cs);
    var table := RouteTable(ctx, env, id);
    forall a, b | 0 <= a < b < |ks| ensures StepBefore(steps[ks[a]], steps[ks[b]]) {
      StepsSorted(ctx, |ctx.ingresses|, ks[a], ks[b]);
    }
    PartsInOrder(table, steps, ks, cs, parts);
    w, spots := if at == -1 then -1 else steps[at].i, Flatten(parts);
    LastOverwriteIs(ctx, env, id, at);
    forall s ensures s in spots <==> GetsRoute(ctx, env, id, s) && s.i > w {
      SpotIsRoute(ctx, env, id, at, ks, cs, parts, s);
    }
    ListedRoutes(ctx, env, id, AllRules(cs), w, spots);
  }

  lemma SpotIsRoute(ctx: Context, env: Env, id: ListenerId, at: int, ks: seq<int>, cs: seq<Props>,
                    parts: seq<seq<Spot>>, s: Spot)
    requires PairsResolve(ctx, env) && LastOverwrite(ctx, env, id, Steps(ctx), at)
    requires Sifted(Brought(ctx, env, id, Steps(ctx)), at, ks, cs)
    requires SpotsOfSteps(RouteTable(ctx, env, id), Steps(ctx), ks, cs, parts)
    ensures (exists a :: 0 <= a < |parts| && s in parts[a]) <==>
      GetsRoute(ctx, env, id, s) && s.i > (if at == -1 then -1 else Steps(ctx)[at].i)
  {
    TableIs(ctx, env, id, s);
    if GetsRoute(ctx, env, id, s) {
      ServesIff(ctx, s.i, s.r, id);
      AskerContributes(ctx, env, id, at, ks, cs, s.i, s.r);
    }
  }

  lemma FlatRules(ctx: Context, env: Env, id: ListenerId)
    requires EnvFits(ctx, env)
    ensures var m := MapAfter(ctx, env, Steps(ctx), id);
      && (m.Some? ==> RulesIn(m.value) == AllRules(ContributionsTo(ctx, env, Steps(ctx), id)))
      && (m.None? ==> AllRules(ContributionsTo(ctx, env, Steps(ctx), id)) == [])
  {
    MapAfterIsFlat(ctx, env, Steps(ctx), id);
    BaseFacts(ctx, env, Steps(ctx), id);
    MergeSeqIsFlat(BaseOf(ctx, env, Steps(ctx), id), ContributionsTo(ctx, env, Steps(ctx), id));
  }

  lemma MapRoutes(ctx: Context, env: Env, maps: map<ListenerId, Props>, id: ListenerId)
    returns (w: int, spots: seq<Spot>)
    requires PairsResolve(ctx, env) && PathMapsPass(ctx, env, maps) && id in maps
    ensures RoutesAre(ctx, env, id, RulesIn(maps[id]), w, spots)
  {
    w, spots := StepsRoutes(ctx, env, id);
    FlatRules(ctx, env, id);
  }

  /** Every path map of a build: which paths its path rules are for, in which order, and where each leads. */
  lemma PathRulesAreWritten(ctx: Context, b: Built, k: nat) returns (w: int, spots: seq<Spot>)
    requires IsBuild(ctx, b) && k < |b.pathMaps|
    ensures k < |b.pathIds| && b.pathMaps[k].name == PathMapName(b.pathIds[k])
    ensures RoutesAre(ctx, EnvOf(b), b.pathIds[k], RulesIn(b.pathMaps[k].props), w, spots)
  {
    assert b.pathIds[k] in b.pathIds;
    w, spots := MapRoutes(ctx, EnvOf(b), b.maps, b.pathIds[k]);
  }
}
