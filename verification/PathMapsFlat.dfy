/**
 When every ingress has rules, the incremental merge of getPathMaps comes to a flat
 concatenation (pkg/appgw/requestroutingrules.go).
 */
module PathMapsFlat {
  import opened Iteration
  import opened Resources
  import opened RoutingTypes
  import opened IngressListeners
  import opened Backends
  import opened PathMaps

  ghost predicate EveryIngressHasRules(ctx: Context) {
    forall i :: 0 <= i < |ctx.ingresses| ==> ctx.ingresses[i].rules != []
  }

  /** getPathRules of the ingress rule, if it serves the listener. */
  ghost function RulesTo(ctx: Context, env: Env, id: ListenerId): Step -> seq<PRule>
    requires EnvFits(ctx, env)
  {
    (s: Step) =>
      if StepServes(ctx, s, id) then
        PathRulesOf(ctx, env, s.i, s.r, id, StepProtocol(ctx, s, id))
      else []
  }

  ghost predicate NeverOverwritten(ctx: Context, env: Env, steps: seq<Step>) {
    forall s :: s in steps ==> !Overwrites(ctx, env, s)
  }

  lemma MergeAppends(prior: Props, c: Props)
    ensures RulesIn(MergeInto(prior, c)) == RulesIn(prior) + RulesIn(c)
    ensures prior.redirect.Some? || c.redirect.Some? ==> MergeInto(prior, c).redirect.Some?
  {
  }

  lemma StepIsFlat(ctx: Context, env: Env, s: Step, id: ListenerId, prior: Option<Props>)
    requires EnvFits(ctx, env) && !Overwrites(ctx, env, s)
    ensures var m := StepAt(ctx, env, s, id, prior);
      && (m.Some? ==> RulesIn(m.value) == (if prior.Some? then RulesIn(prior.value) else []) + RulesTo(ctx, env, id)(s))
      && (m.None? ==> prior.None? && RulesTo(ctx, env, id)(s) == [])
  {
    if StepServes(ctx, s, id) {
      MergeAppends(if prior.Some? then prior.value else FRESH, StepContribution(ctx, env, s, id));
    }
  }

  lemma {:induction false} StepsAreFlat(ctx: Context, env: Env, steps: seq<Step>, id: ListenerId)
    requires EnvFits(ctx, env) && NeverOverwritten(ctx, env, steps)
    ensures var m := MapAfter(ctx, env, steps, id);
      && (m.Some? ==> RulesIn(m.value) == Collect(steps, RulesTo(ctx, env, id)))
      && (m.None? ==> Collect(steps, RulesTo(ctx, env, id)) == [])
  {
    if steps != [] {
      var n := |steps| - 1;
      StepsAreFlat(ctx, env, steps[..n], id);
      StepIsFlat(ctx, env, steps[n], id, MapAfter(ctx, env, steps[..n], id));
    }
  }

  /** There is a map and it redirects. */
  ghost predicate Redirects(m: Option<Props>) {
    m.Some? && m.value.redirect.Some?
  }

  ghost predicate BringsRedirect(ctx: Context, env: Env, s: Step, id: ListenerId)
    requires EnvFits(ctx, env)
  {
    StepServes(ctx, s, id) && StepContribution(ctx, env, s, id).redirect.Some?
  }

  lemma StepRedirects(ctx: Context, env: Env, s: Step, id: ListenerId, prior: Option<Props>)
    requires EnvFits(ctx, env) && !Overwrites(ctx, env, s) && (Redirects(prior) || BringsRedirect(ctx, env, s, id))
    ensures Redirects(StepAt(ctx, env, s, id, prior))
  {
    if StepServes(ctx, s, id) {
      MergeAppends(if prior.Some? then prior.value else FRESH, StepContribution(ctx, env, s, id));
    }
  }

  lemma {:induction false} RedirectStays(ctx: Context, env: Env, steps: seq<Step>, id: ListenerId, k: nat)
    requires EnvFits(ctx, env) && NeverOverwritten(ctx, env, steps) && k < |steps|
    requires BringsRedirect(ctx, env, steps[k], id)
    ensures Redirects(MapAfter(ctx, env, steps, id))
  {
    var n := |steps| - 1;
    if k < n {
      RedirectStays(ctx, env, steps[..n], id, k);
    }
    StepRedirects(ctx, env, steps[n], id, MapAfter(ctx, env, steps[..n], id));
  }

  lemma NothingOverwrites(ctx: Context, env: Env)
    requires EveryIngressHasRules(ctx)
    ensures NeverOverwritten(ctx, env, Steps(ctx))
  {
    forall s | s in Steps(ctx) ensures !Overwrites(ctx, env, s) {
      StepsAre(ctx, |ctx.ingresses|, s);
    }
  }

  /** A requested listener's path rules are those of the ingress rules that serve it, one after the
      other in ingress and rule order. */
  lemma PathRulesAreFlat(ctx: Context, env: Env, maps: map<ListenerId, Props>, id: ListenerId)
    requires PathMapsPass(ctx, env, maps) && EveryIngressHasRules(ctx) && Requested(ctx, id)
    ensures id in maps && RulesIn(maps[id]) == Collect(Steps(ctx), RulesTo(ctx, env, id))
  {
    MapIffAsked(ctx, env, id);
    NothingOverwrites(ctx, env);
    StepsAreFlat(ctx, env, Steps(ctx), id);
  }

  /** A default redirect that some serving rule brings is never lost. */
  lemma RedirectIsNeverLost(ctx: Context, env: Env, maps: map<ListenerId, Props>, id: ListenerId, i: nat, r: nat)
    requires PathMapsPass(ctx, env, maps) && EveryIngressHasRules(ctx)
    requires Serves(ctx, i, r, id) && StepContribution(ctx, env, OneRule(i, r), id).redirect.Some?
    ensures id in maps && maps[id].redirect.Some?
  {
    MapIffAsked(ctx, env, id);
    NothingOverwrites(ctx, env);
    StepsAre(ctx, |ctx.ingresses|, OneRule(i, r));
    var steps := Steps(ctx);
    var k: nat :| k < |steps| && steps[k] == OneRule(i, r);
    RedirectStays(ctx, env, steps, id, k);
  }

  // ---------------------------------------------------------------- which paths get a rule

  ghost function PathsOfRule(): PRule -> seq<string> {
    (pr: PRule) => if pr.paths.Some? then pr.paths.value else []
  }

  ghost function NonDefault(): Path -> seq<string> {
    (p: Path) => if IsDefaultPath(p.path) then [] else [p.path]
  }

  lemma {:induction false} PathsUpTo(ctx: Context, env: Env, i: nat, r: nat, id: ListenerId, protocol: Protocol, n: nat)
    requires EnvFits(ctx, env) && HttpRule(ctx, i, r) && n <= NumPaths(ctx, i, r)
    requires RedirectFor(ctx, env, i, id, protocol).Some? || forall p :: 0 <= p < NumPaths(ctx, i, r) ==>
      PathOf(i, r, p) in env.pairs
    ensures Collect(PathRulesUpTo(ctx, env, i, r, id, protocol, n), PathsOfRule()) ==
      Collect(ctx.ingresses[i].rules[r].http.value[..n], NonDefault())
  {
    if n > 0 {
      PathsUpTo(ctx, env, i, r, id, protocol, n - 1);
      var before := PathRulesUpTo(ctx, env, i, r, id, protocol, n - 1);
      var pr := PathRuleAt(ctx, env, i, r, id, protocol, n - 1);
      CollectSnoc(ctx.ingresses[i].rules[r].http.value, NonDefault(), n - 1);
      if pr.Some? {
        CollectConcat(before, [pr.value], PathsOfRule());
        CollectOne(pr.value, PathsOfRule());
      }
    }
  }

  /** Of a rule whose backends resolve, or that redirects, exactly the paths other than the blank one,
      slash and slash-star get a path rule, in order. */
  lemma {:induction false} PathRulesCoverPaths(ctx: Context, env: Env, i: nat, r: nat, id: ListenerId,
      protocol: Protocol)
    requires EnvFits(ctx, env) && HttpRule(ctx, i, r)
    requires RedirectFor(ctx, env, i, id, protocol).Some? || forall p :: 0 <= p < NumPaths(ctx, i, r) ==>
      PathOf(i, r, p) in env.pairs
    ensures Collect(PathRulesOf(ctx, env, i, r, id, protocol), PathsOfRule()) ==
      Collect(ctx.ingresses[i].rules[r].http.value, NonDefault())
  {
    var paths := ctx.ingresses[i].rules[r].http.value;
    PathsUpTo(ctx, env, i, r, id, protocol, |paths|);
    assert paths[..|paths|] == paths;
  }
}
