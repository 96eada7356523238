/**
 Exactly when a greenfield build leaves a reference dangling: an ingress without rules names a
 pool for the default listener without checking that it exists
 (noRulesIngress of pkg/appgw/requestroutingrules.go).
 */
module BuildDangling {
  import opened Iteration
  import opened Resources
  import opened RoutingTypes
  import opened ListenerIds
  import opened IngressListeners
  import opened Backends
  import opened PathMaps
  import opened BuildSpec
  import opened BuildListeners
  import opened BuildReferences
  import opened BuildValidation
  import opened BuildOrder

  // ---------------------------------------------------------------- the condition

  /** Ingress `i` has no rules, and its default backend has a port pair. */
  ghost predicate NamesPool(ctx: Context, pairs: map<BackendId, PortPair>, i: int) {
    0 <= i < |ctx.ingresses| && ctx.ingresses[i].rules == [] && Exists(ctx, DefaultOf(i)) && DefaultOf(i) in pairs
  }

  /** The HTTPS listener without host names exists and gets a redirect. */
  ghost predicate DefaultRedirects(ctx: Context) {
    var twin := HttpsTwin(DefaultListener());
    twin in Configs(ctx) && Configs(ctx)[twin].redirect.Some?
  }

  /** Rule `r` of ingress `i` brings the default listener neither a redirect nor a pool with endpoints. */
  ghost predicate KeepsPool(ctx: Context, pairs: map<BackendId, PortPair>, i: nat, r: nat)
    requires HttpRule(ctx, i, r) && forall x :: x in pairs ==> Exists(ctx, x)
  {
    && !(ctx.ingresses[i].sslRedirect && DefaultRedirects(ctx))
    && var x := DefaultBackend(ctx, i, r);
       !(x.Some? && x.value in pairs && HasEndpoints(ctx, x.value, pairs[x.value]))
  }

  /** No backend with the name of that pool has endpoints. */
  ghost predicate PoolMissing(ctx: Context, pairs: map<BackendId, PortPair>, pool: Id)
    requires forall x :: x in pairs ==> Exists(ctx, x)
  {
    forall x :: x in pairs && OwnPoolName(ctx, x, pairs[x]) == pool ==> !HasEndpoints(ctx, x, pairs[x])
  }

  /** Ingress `i` is the last to name the default listener's pool, and the pool does not exist. */
  ghost predicate Dangles(ctx: Context, pairs: map<BackendId, PortPair>, i: int)
    requires forall x :: x in pairs ==> Exists(ctx, x)
  {
    && NamesPool(ctx, pairs, i)
    && (forall j :: i < j ==> !NamesPool(ctx, pairs, j))
    && (forall j, r :: i < j && Serves(ctx, j, r, DefaultListener()) ==> KeepsPool(ctx, pairs, j, r))
    && PoolMissing(ctx, pairs, OwnPoolName(ctx, DefaultOf(i), pairs[DefaultOf(i)]))
  }

  // ---------------------------------------------------- the default listener's pool after a number of steps

  /** Step `k` named the pool and no later step replaced it. */
  ghost predicate PoolFrom(ctx: Context, env: Env, steps: seq<Step>, k: int)
    requires EnvFits(ctx, env)
  {
    && 0 <= k < |steps| && Overwrites(ctx, env, steps[k])
    && forall m :: k < m < |steps| ==> Leaves(ctx, env, steps[m])
  }

  ghost predicate Leaves(ctx: Context, env: Env, s: Step)
    requires EnvFits(ctx, env)
  {
    && !Overwrites(ctx, env, s)
    && (StepServes(ctx, s, DefaultListener()) ==> BringsNothing(StepContribution(ctx, env, s, DefaultListener())))
  }

  /** A contribution without a redirect and without a pool of its own. */
  predicate BringsNothing(c: Props) {
    c.redirect.None? && (c.pool.None? || c.pool.value == DefaultPoolName)
  }

  lemma {:induction false} PoolFromSnoc(ctx: Context, env: Env, steps: seq<Step>, k: int)
    requires EnvFits(ctx, env) && steps != []
    ensures var n := |steps| - 1;
      PoolFrom(ctx, env, steps, k) <==>
      if k == n then Overwrites(ctx, env, steps[n]) else PoolFrom(ctx, env, steps[..n], k) && Leaves(ctx, env, steps[n])
  {
    var n := |steps| - 1;
    assert forall m :: 0 <= m < n ==> steps[..n][m] == steps[m];
  }

  /** What the pool is: the one last named, if no step replaced it; otherwise one that exists. */
  ghost predicate PoolIs(ctx: Context, env: Env, known: Known, steps: seq<Step>, m: Option<Props>)
    requires EnvFits(ctx, env)
  {
    && (forall k :: PoolFrom(ctx, env, steps, k) ==>
          m.Some? && m.value.redirect.None? && m.value.pool == BareProps(ctx, env, steps[k].i).pool)
    && ((forall k :: !PoolFrom(ctx, env, steps, k)) && m.Some? ==> In(m.value.pool, known.pools))
  }

  /** Merging leaves the pool when the contribution is plain, and otherwise leaves one that exists. */
  lemma MergePool(known: Known, prior: Props, c: Props)
    requires c.redirect.None? ==> c.pool.Some?
    requires In(c.pool, known.pools)
    ensures BringsNothing(c) ==>
      MergeInto(prior, c).pool == prior.pool && MergeInto(prior, c).redirect == prior.redirect
    ensures !BringsNothing(c) ==> In(MergeInto(prior, c).pool, known.pools)
  {
  }

  lemma ContributionPool(ctx: Context, env: Env, known: Known, s: Step)
    requires KnownFits(ctx, env, known) && StepServes(ctx, s, DefaultListener())
    ensures var c := StepContribution(ctx, env, s, DefaultListener());
      In(c.pool, known.pools) && (c.redirect.None? ==> c.pool.Some?)
  {
    var id := DefaultListener();
    ContributionFine(ctx, env, known, s.i, s.r, id, StepProtocol(ctx, s, id));
  }

  /** One step that does not name a pool. */
  lemma StepPool(ctx: Context, env: Env, known: Known, s: Step, prior: Option<Props>)
    requires KnownFits(ctx, env, known) && !Overwrites(ctx, env, s)
    ensures var m := StepAt(ctx, env, s, DefaultListener(), prior);
      && (Leaves(ctx, env, s) && prior.Some? ==>
            m.Some? && m.value.pool == prior.value.pool && m.value.redirect == prior.value.redirect)
      && (Leaves(ctx, env, s) && prior.None? && m.Some? ==> In(m.value.pool, known.pools))
      && (!Leaves(ctx, env, s) && m.Some? ==> In(m.value.pool, known.pools))
  {
    if StepServes(ctx, s, DefaultListener()) {
      ContributionPool(ctx, env, known, s);
      MergePool(known, if prior.Some? then prior.value else FRESH, StepContribution(ctx, env, s, DefaultListener()));
    }
  }

  lemma {:induction false} PoolAfter(ctx: Context, env: Env, known: Known, steps: seq<Step>)
    requires KnownFits(ctx, env, known)
    ensures PoolIs(ctx, env, known, steps, MapAfter(ctx, env, steps, DefaultListener()))
  {
    if steps != [] {
      var n := |steps| - 1;
      var p, s := steps[..n], steps[n];
      var prior, m := MapAfter(ctx, env, p, DefaultListener()), MapAfter(ctx, env, steps, DefaultListener());
      PoolAfter(ctx, env, known, p);
      forall k { PoolFromSnoc(ctx, env, steps, k); }
      if Overwrites(ctx, env, s) {
        assert m == Some(BareProps(ctx, env, s.i));
        assert PoolFrom(ctx, env, steps, n);
      } else {
        StepPool(ctx, env, known, s, prior);
        PoolStays(ctx, env, known, steps, prior, m);
      }
    }
  }

  lemma {:induction false} PoolStays(ctx: Context, env: Env, known: Known, steps: seq<Step>, prior: Option<Props>,
                                     m: Option<Props>)
    requires EnvFits(ctx, env) && steps != [] && !Overwrites(ctx, env, steps[|steps| - 1])
    requires PoolIs(ctx, env, known, steps[..|steps| - 1], prior)
    requires var leaves := Leaves(ctx, env, steps[|steps| - 1]);
      && (leaves && prior.Some? ==>
            m.Some? && m.value.pool == prior.value.pool && m.value.redirect == prior.value.redirect)
      && (leaves && prior.None? && m.Some? ==> In(m.value.pool, known.pools))
      && (!leaves && m.Some? ==> In(m.value.pool, known.pools))
    ensures PoolIs(ctx, env, known, steps, m)
  {
    var n := |steps| - 1;
    forall k ensures PoolFrom(ctx, env, steps, k) <==> PoolFrom(ctx, env, steps[..n], k) && Leaves(ctx, env, steps[n]) {
      PoolFromSnoc(ctx, env, steps, k);
    }
    assert forall k :: 0 <= k < n ==> steps[..n][k] == steps[k];
    if m.Some? && Leaves(ctx, env, steps[n]) && (forall k :: !PoolFrom(ctx, env, steps, k)) {
      assert forall k :: !PoolFrom(ctx, env, steps[..n], k);
    }
  }

  // ---------------------------------------------------------------- from steps to ingresses

  lemma StepsOfIngress(ctx: Context, i: nat, k: nat)
    requires i < |ctx.ingresses| && k < |StepsOf(ctx, i)|
    ensures StepsOf(ctx, i)[k].i == i && (|StepsOf(ctx, i)| > 1 ==> StepsOf(ctx, i)[k].OneRule?)
  {
  }

  /** Steps come in ingress order, and an ingress without rules has one step. */
  lemma {:induction false} StepsInOrder(ctx: Context, n: nat, p: nat, q: nat)
    requires n <= |ctx.ingresses| && p < q < |StepsUpTo(ctx, n)|
    ensures StepsUpTo(ctx, n)[p].i <= StepsUpTo(ctx, n)[q].i < n
    ensures StepsUpTo(ctx, n)[p].i == StepsUpTo(ctx, n)[q].i ==>
      StepsUpTo(ctx, n)[p].OneRule? && StepsUpTo(ctx, n)[q].OneRule?
  {
    var before, own := StepsUpTo(ctx, n - 1), StepsOf(ctx, n - 1);
    var steps := StepsUpTo(ctx, n);
    assert steps == before + own;
    if q < |before| {
      StepsInOrder(ctx, n - 1, p, q);
    } else {
      StepsOfIngress(ctx, n - 1, q - |before|);
      if p < |before| {
        assert before[p] in before;
        StepsAre(ctx, n - 1, before[p]);
      } else {
        StepsOfIngress(ctx, n - 1, p - |before|);
      }
    }
  }

  /** The step that names the pool, seen from the ingresses. */
  lemma {:induction false} PoolFromIngress(ctx: Context, env: Env, k: int)
    requires EnvFits(ctx, env) && PoolFrom(ctx, env, Steps(ctx), k)
    ensures var i := Steps(ctx)[k].i; NamesPool(ctx, env.pairs, i) && NamedLast(ctx, env, i)
  {
    var steps := Steps(ctx);
    var i := steps[k].i;
    assert steps[k] in steps;
    StepsAre(ctx, |ctx.ingresses|, steps[k]);
    forall s | s in steps && s.i > i ensures Leaves(ctx, env, s) {
      var m :| 0 <= m < |steps| && steps[m] == s;
      OrderTells(ctx, k, m);
    }
    AllLeave(ctx, env, i);
  }

  lemma OrderTells(ctx: Context, k: nat, m: nat)
    requires k < |Steps(ctx)| && m < |Steps(ctx)| && Steps(ctx)[m].i > Steps(ctx)[k].i
    ensures k < m
  {
    if m < k { StepsInOrder(ctx, |ctx.ingresses|, m, k); }
  }

  /** No later ingress names a pool, and later rules leave it. */
  ghost predicate NamedLast(ctx: Context, env: Env, i: int)
    requires EnvFits(ctx, env)
  {
    && (forall j :: i < j ==> !NamesPool(ctx, env.pairs, j))
    && (forall j: nat, r: nat :: i < j && Serves(ctx, j, r, DefaultListener()) ==> Leaves(ctx, env, OneRule(j, r)))
  }

  lemma AllLeave(ctx: Context, env: Env, i: nat)
    requires EnvFits(ctx, env) && forall s :: s in Steps(ctx) && s.i > i ==> Leaves(ctx, env, s)
    ensures NamedLast(ctx, env, i)
  {
    forall j: int | i < j ensures !NamesPool(ctx, env.pairs, j) {
      if NamesPool(ctx, env.pairs, j) {
        StepsAre(ctx, |ctx.ingresses|, NoRules(j));
      }
    }
    forall j: nat, r: nat | i < j && Serves(ctx, j, r, DefaultListener()) ensures Leaves(ctx, env, OneRule(j, r)) {
      StepsAre(ctx, |ctx.ingresses|, OneRule(j, r));
    }
  }

  lemma {:induction false} IngressPoolFrom(ctx: Context, env: Env, i: nat) returns (k: int)
    requires EnvFits(ctx, env) && NamesPool(ctx, env.pairs, i) && NamedLast(ctx, env, i)
    ensures PoolFrom(ctx, env, Steps(ctx), k) && Steps(ctx)[k] == NoRules(i)
  {
    var steps := Steps(ctx);
    StepsAre(ctx, |ctx.ingresses|, NoRules(i));
    k :| 0 <= k < |steps| && steps[k] == NoRules(i);
    forall m | k < m < |steps| ensures Leaves(ctx, env, steps[m]) {
      StepsInOrder(ctx, |ctx.ingresses|, k, m);
      assert steps[m] in steps;
      StepsAre(ctx, |ctx.ingresses|, steps[m]);
      LaterLeaves(ctx, env, i, steps[m]);
    }
  }

  lemma LaterLeaves(ctx: Context, env: Env, i: nat, s: Step)
    requires EnvFits(ctx, env) && NamedLast(ctx, env, i) && s.i > i && s.i < |ctx.ingresses|
    requires s.NoRules? ==> ctx.ingresses[s.i].rules == []
    ensures Leaves(ctx, env, s)
  {
    if s.NoRules? {
      assert !NamesPool(ctx, env.pairs, s.i);
    }
  }

  // ---------------------------------------------------------------- the blank listeners of a build

  /** A public identifier without host names. */
  ghost predicate Blank(id: ListenerId) {
    id.hostName == "" && id.hostNames == Blanks(MAX_HOSTNAMES) && !id.privateIp
  }

  lemma PaddedStart(hs: seq<string>)
    ensures hs != [] ==> Padded(hs)[0] == hs[0]
  {
  }

  lemma SqueezedBlank(id: ListenerId, t: ListenerId)
    requires Canonical(id) && Blank(t)
    ensures Squeezed(id) == t <==> id == t
  {
    var hs := id.hostNames;
    NonBlankCompacts(hs);
    if Squeezed(id) == t {
      assert Padded(NonBlank(hs)) == Blanks(MAX_HOSTNAMES);
      PaddedStart(NonBlank(hs));
      AllBlank(hs);
      assert FirstNonBlank([]) == "";
    }
    if id == t {
      NonBlankOfBlanks(hs);
      FirstNonBlankPadded([], MAX_HOSTNAMES);
      assert [] + Blanks(MAX_HOSTNAMES) == Blanks(MAX_HOSTNAMES);
    }
  }

  lemma {:induction false} AllBlank(hs: seq<string>)
    requires NonBlank(hs) == []
    ensures hs == Blanks(|hs|)
  {
    if hs != [] {
      AllBlank(hs[1..]);
      assert hs == [""] + hs[1..];
    }
  }

  lemma BlankRecovered(ctx: Context, configs: map<ListenerId, AzConfig>, ids: seq<ListenerId>, listeners: seq<Listener>,
                       ports: seq<FrontendPort>, k: nat, t: ListenerId)
    requires Ready(ctx, configs) && ListenersPass(ctx, configs, ids, listeners, ports)
    requires PortIdsClear(ctx) && IpsClear(ctx) && Blank(t) && k < |ids|
    ensures Recover(ctx, PortsById(ports), listeners[k]) == t <==> ids[k] == t
  {
    RecoveredIff(ctx, configs, ids, listeners, ports, k);
    assert Shape(ctx, ids[k], configs[ids[k]]);
    SqueezedBlank(ids[k], t);
  }

  lemma BlankIsAdmitted(ctx: Context, configs: map<ListenerId, AzConfig>, ids: seq<ListenerId>, t: ListenerId)
    requires Admitted(ctx, configs, ids) && Blank(t)
    ensures t in ids <==> t in configs
  {
  }

  /** Such a listener is always admitted, and recovered from its listener. */
  lemma BlankIsGrouped(ctx: Context, b: Built, t: ListenerId)
    requires Ready(ctx, b.configs) && ListenersPass(ctx, b.configs, b.ids, b.listeners, b.ports)
    requires b.byId == Group(ctx, PortsById(b.ports), b.listeners) && PortIdsClear(ctx) && IpsClear(ctx) && Blank(t)
    ensures t in b.byId <==> t in b.configs
  {
    var keys := Recovered(ctx, PortsById(b.ports), b.listeners);
    forall k | 0 <= k < |b.ids| ensures keys[k] == t <==> b.ids[k] == t {
      BlankRecovered(ctx, b.configs, b.ids, b.listeners, b.ports, k, t);
    }
    SamePlaces(keys, b.ids, t);
    ZipKeys(keys, b.listeners, t);
    BlankIsAdmitted(ctx, b.configs, b.ids, t);
  }

  lemma SamePlaces<T>(a: seq<T>, b: seq<T>, t: T)
    requires |a| == |b| && forall k :: 0 <= k < |a| ==> (a[k] == t <==> b[k] == t)
    ensures t in a <==> t in b
  {
  }

  lemma DefaultIsBlank()
    ensures Blank(DefaultListener()) && Blank(HttpsTwin(DefaultListener()))
  {
  }

  /** The redirect to the blank HTTPS listener exists exactly when its configuration asks for it. */
  lemma DefaultRedirectThere(ctx: Context, b: Built)
    requires IsBuild(ctx, b) && PortIdsClear(ctx) && IpsClear(ctx)
    ensures RedirectName(HttpsTwin(DefaultListener())) in RedirectIds(b.redirects) <==> DefaultRedirects(ctx)
    ensures DefaultListener() in b.byId <==> DefaultListener() in Configs(ctx)
  {
    DefaultIsBlank();
    BlankIsGrouped(ctx, b, DefaultListener());
    BlankIsGrouped(ctx, b, HttpsTwin(DefaultListener()));
    RedirectThere(ctx, b.configs, b.byId, b.targets, b.redirects, HttpsTwin(DefaultListener()));
  }

  lemma RedirectThere(ctx: Context, configs: map<ListenerId, AzConfig>, byId: map<ListenerId, Listener>,
                      targets: seq<ListenerId>, redirects: seq<Redirect>, t: ListenerId)
    requires Shaped(ctx, configs) && RedirectsPass(configs, byId, targets, redirects)
    ensures RedirectName(t) in RedirectIds(redirects) <==> t in configs && t in byId && configs[t].redirect.Some?
  {
    forall k | 0 <= k < |targets| ensures redirects[k].name == RedirectName(targets[k]) && targets[k] in targets {
      assert targets[k] in targets;
      assert Shape(ctx, targets[k], configs[targets[k]]);
    }
    if t in configs && t in byId && configs[t].redirect.Some? {
      assert Shape(ctx, t, configs[t]);
      assert t in targets;
      var k :| 0 <= k < |targets| && targets[k] == t;
      assert redirects[k].name == RedirectName(t);
    }
  }

  // ---------------------------------------------------------------- the theorem

  lemma ServedOverHttp(ctx: Context, j: nat, r: nat)
    requires Serves(ctx, j, r, DefaultListener())
    ensures HttpRule(ctx, j, r)
    ensures ProcessRule(ctx, ctx.ingresses[j], ctx.ingresses[j].rules[r])[DefaultListener()].protocol == HTTP
  {
    ProcessRuleShape(ctx, ctx.ingresses[j], ctx.ingresses[j].rules[r]);
  }

  lemma PlainContribution(ctx: Context, env: Env, j: nat, r: nat)
    requires EnvFits(ctx, env) && HttpRule(ctx, j, r)
    requires RedirectName(HttpsTwin(DefaultListener())) in env.redirects <==> DefaultRedirects(ctx)
    ensures BringsNothing(Contribution(ctx, env, j, r, DefaultListener(), HTTP)) <==> KeepsPool(ctx, env.pairs, j, r)
  {
  }

  /** A rule leaves the pool exactly when it keeps it, in the words of the input. */
  lemma LeavesIsKeeps(ctx: Context, b: Built, j: nat, r: nat)
    requires BackendsPass(ctx, b.pairs) && Serves(ctx, j, r, DefaultListener())
    requires RedirectName(HttpsTwin(DefaultListener())) in RedirectIds(b.redirects) <==> DefaultRedirects(ctx)
    ensures HttpRule(ctx, j, r) && (Leaves(ctx, EnvOf(b), OneRule(j, r)) <==> KeepsPool(ctx, b.pairs, j, r))
  {
    ServedOverHttp(ctx, j, r);
    PlainContribution(ctx, EnvOf(b), j, r);
  }

  lemma NamedLastIs(ctx: Context, b: Built, i: nat)
    requires BackendsPass(ctx, b.pairs)
    requires RedirectName(HttpsTwin(DefaultListener())) in RedirectIds(b.redirects) <==> DefaultRedirects(ctx)
    ensures NamedLast(ctx, EnvOf(b), i) <==>
      && (forall j :: i < j ==> !NamesPool(ctx, b.pairs, j))
      && (forall j, r :: i < j && Serves(ctx, j, r, DefaultListener()) ==> KeepsPool(ctx, b.pairs, j, r))
  {
    forall j: nat, r: nat | Serves(ctx, j, r, DefaultListener())
      ensures Leaves(ctx, EnvOf(b), OneRule(j, r)) <==> KeepsPool(ctx, b.pairs, j, r)
    {
      LeavesIsKeeps(ctx, b, j, r);
    }
  }

  /** A pool name is in the list exactly when some backend of that pool has endpoints. */
  lemma OwnPoolThere(ctx: Context, pairs: map<BackendId, PortPair>, pools: set<Id>, x: BackendId)
    requires (forall y :: y in pairs ==> Exists(ctx, y)) && PoolsPass(ctx, pairs, pools) && x in pairs
    ensures OwnPoolName(ctx, x, pairs[x]) !in pools <==> PoolMissing(ctx, pairs, OwnPoolName(ctx, x, pairs[x]))
  {
    var pool := OwnPoolName(ctx, x, pairs[x]);
    if y :| y in pairs && OwnPoolName(ctx, y, pairs[y]) == pool && HasEndpoints(ctx, y, pairs[y]) {
      assert PoolFor(ctx, y, pairs[y]) == pool;
    }
  }

  lemma DanglingPool(ctx: Context, b: Built, i: int)
    requires KnownFits(ctx, EnvOf(b), KnownOf(b)) && PathMapsPass(ctx, EnvOf(b), b.maps)
    requires PoolsPass(ctx, b.pairs, b.pools)
    requires NamesPool(ctx, b.pairs, i) && NamedLast(ctx, EnvOf(b), i)
    ensures DefaultListener() in b.maps && b.maps[DefaultListener()].redirect.None?
    ensures b.maps[DefaultListener()].pool == Some(OwnPoolName(ctx, DefaultOf(i), b.pairs[DefaultOf(i)]))
  {
    var env, id := EnvOf(b), DefaultListener();
    PoolAfter(ctx, env, KnownOf(b), Steps(ctx));
    var k := IngressPoolFrom(ctx, env, i);
    assert MapAfter(ctx, env, Steps(ctx), id).Some?;
    assert AnyMap(ctx, env);
  }

  lemma SoundPool(ctx: Context, b: Built)
    requires KnownFits(ctx, EnvOf(b), KnownOf(b)) && PathMapsPass(ctx, EnvOf(b), b.maps)
    requires forall i :: !(NamesPool(ctx, b.pairs, i) && NamedLast(ctx, EnvOf(b), i))
    ensures DefaultListener() in b.maps ==> In(b.maps[DefaultListener()].pool, b.pools)
  {
    var env := EnvOf(b);
    PoolAfter(ctx, env, KnownOf(b), Steps(ctx));
    forall k ensures !PoolFrom(ctx, env, Steps(ctx), k) {
      if PoolFrom(ctx, env, Steps(ctx), k) { PoolFromIngress(ctx, env, k); }
    }
  }

  /** Ingress `i` is the last to name the pool, in the words of the steps, and the pool is not emitted. */
  ghost predicate Missing(ctx: Context, b: Built, i: int)
    requires EnvFits(ctx, EnvOf(b))
  {
    && NamesPool(ctx, b.pairs, i) && NamedLast(ctx, EnvOf(b), i)
    && OwnPoolName(ctx, DefaultOf(i), b.pairs[DefaultOf(i)]) !in b.pools
  }

  lemma DanglesIs(ctx: Context, b: Built, i: int)
    requires BackendsPass(ctx, b.pairs) && PoolsPass(ctx, b.pairs, b.pools)
    requires RedirectName(HttpsTwin(DefaultListener())) in RedirectIds(b.redirects) <==> DefaultRedirects(ctx)
    ensures Dangles(ctx, b.pairs, i) <==> Missing(ctx, b, i)
  {
    if NamesPool(ctx, b.pairs, i) {
      NamedLastIs(ctx, b, i);
      OwnPoolThere(ctx, b.pairs, b.pools, DefaultOf(i));
    }
  }

  ghost predicate SomeDangles(ctx: Context, pairs: map<BackendId, PortPair>)
    requires forall x :: x in pairs ==> Exists(ctx, x)
  {
    exists i :: Dangles(ctx, pairs, i)
  }

  lemma DanglingDefault(ctx: Context, b: Built)
    requires KnownFits(ctx, EnvOf(b), KnownOf(b)) && PathMapsPass(ctx, EnvOf(b), b.maps)
    requires BackendsPass(ctx, b.pairs) && PoolsPass(ctx, b.pairs, b.pools) && SomeDangles(ctx, b.pairs)
    requires RedirectName(HttpsTwin(DefaultListener())) in RedirectIds(b.redirects) <==> DefaultRedirects(ctx)
    ensures DefaultListener() in b.maps && b.maps[DefaultListener()].redirect.None?
    ensures !In(b.maps[DefaultListener()].pool, b.pools)
  {
    var i :| Dangles(ctx, b.pairs, i);
    DanglesIs(ctx, b, i);
    DanglingPool(ctx, b, i);
  }

  lemma SoundDefault(ctx: Context, b: Built)
    requires KnownFits(ctx, EnvOf(b), KnownOf(b)) && PathMapsPass(ctx, EnvOf(b), b.maps)
    requires BackendsPass(ctx, b.pairs) && PoolsPass(ctx, b.pairs, b.pools) && !SomeDangles(ctx, b.pairs)
    requires RedirectName(HttpsTwin(DefaultListener())) in RedirectIds(b.redirects) <==> DefaultRedirects(ctx)
    ensures DefaultListener() in b.maps ==> In(b.maps[DefaultListener()].pool, b.pools)
  {
    if i :| NamesPool(ctx, b.pairs, i) && NamedLast(ctx, EnvOf(b), i) {
      DanglingPool(ctx, b, i);
      DanglesIs(ctx, b, i);
    } else {
      SoundPool(ctx, b);
    }
  }

  /** The default listener's pool fails to resolve exactly when some ingress dangles. */
  lemma DefaultPoolIff(ctx: Context, b: Built)
    requires KnownFits(ctx, EnvOf(b), KnownOf(b)) && PathMapsPass(ctx, EnvOf(b), b.maps)
    requires BackendsPass(ctx, b.pairs) && PoolsPass(ctx, b.pairs, b.pools)
    requires RedirectName(HttpsTwin(DefaultListener())) in RedirectIds(b.redirects) <==> DefaultRedirects(ctx)
    ensures DefaultPoolResolves(b) <==> !(DefaultListener() in b.byId && SomeDangles(ctx, b.pairs))
  {
    if SomeDangles(ctx, b.pairs) {
      DanglingDefault(ctx, b);
    } else {
      SoundDefault(ctx, b);
    }
  }

  /** Every reference of a build resolves unless the default listener is configured and the last
      ingress to name its pool names one that does not exist. */
  lemma RefsResolveExactly(ctx: Context, b: Built)
    requires IsBuild(ctx, b) && PortIdsClear(ctx) && IpsClear(ctx)
    ensures RefsResolve(b) <==> !(DefaultListener() in Configs(ctx) && SomeDangles(ctx, b.pairs))
  {
    BuildKnownFits(ctx, b);
    RefsResolveIff(ctx, b);
    DefaultRedirectThere(ctx, b);
    DefaultPoolIff(ctx, b);
  }

  /** Whatever the backends that resolve before the loop stops: if no port pairs it can end with dangle,
      every reference of every build resolves. */
  lemma RefsResolveWhateverStops(ctx: Context, b: Built)
    requires IsBuild(ctx, b) && PortIdsClear(ctx) && IpsClear(ctx)
    requires forall pairs :: BackendsPass(ctx, pairs) ==> !SomeDangles(ctx, pairs)
    ensures RefsResolve(b)
  {
    RefsResolveExactly(ctx, b);
  }

  /** The port pairs of all backends. */
  ghost predicate Settles(ctx: Context, pairs: map<BackendId, PortPair>) {
    (forall x :: x in pairs <==> Exists(ctx, x)) && forall x :: x in pairs ==> Resolves(ctx, x, {pairs[x]})
  }

  ghost predicate InputDangles(ctx: Context) {
    DefaultListener() in Configs(ctx) && exists pairs :: Settles(ctx, pairs) && SomeDangles(ctx, pairs)
  }

  /** When all backends resolve, the condition is on the input alone. */
  lemma RefsResolveOnInput(ctx: Context, b: Built)
    requires IsBuild(ctx, b) && PortIdsClear(ctx) && IpsClear(ctx) && AllResolve(ctx)
    ensures RefsResolve(b) <==> !InputDangles(ctx)
  {
    RefsResolveExactly(ctx, b);
    PairsSettle(ctx, b.pairs);
    forall pairs | Settles(ctx, pairs) ensures pairs == b.pairs {
      PairsDetermined(ctx, pairs, b.pairs);
    }
  }

  lemma PairsSettle(ctx: Context, pairs: map<BackendId, PortPair>)
    requires BackendsPass(ctx, pairs) && AllResolve(ctx)
    ensures Settles(ctx, pairs)
  {
    forall x | Exists(ctx, x) ensures !Resolves(ctx, x, {}) {
      var pair :| Resolves(ctx, x, {pair});
      if Resolves(ctx, x, {}) { ResolvesOnce(ctx, x, {pair}, {}); }
    }
  }

  /** A single ingress without rules dangles exactly when no endpoint offers its backend's port. */
  lemma LoneBareIngressDangles(ctx: Context, pairs: map<BackendId, PortPair>)
    requires |ctx.ingresses| == 1 && ctx.ingresses[0].rules == []
    requires DefaultOf(0) in pairs && forall x :: x in pairs ==> Exists(ctx, x)
    ensures DefaultListener() in Configs(ctx)
    ensures SomeDangles(ctx, pairs) <==> !HasEndpoints(ctx, DefaultOf(0), pairs[DefaultOf(0)])
  {
    ConfigsAre(ctx);
    assert forall x :: x in pairs ==> x == DefaultOf(0);
    assert Dangles(ctx, pairs, 0) <==> !HasEndpoints(ctx, DefaultOf(0), pairs[DefaultOf(0)]);
  }
}
