/** Removing prohibited targets from the rules of an ingress (pkg/brownfield/ingress.go). */
module Pruning {
  import opened Resources
  import opened Iteration
  import opened Targets
  import opened Prohibition

  datatype IngressPath<Backend> = IngressPath(path: string, backend: Backend)

  /** `http` is None for a rule without an HTTP section, `paths` is None for a nil list of paths. */
  datatype Http<Backend> = Http(paths: Option<seq<IngressPath<Backend>>>)
  datatype HostRule<Backend> = HostRule(host: string, http: Option<Http<Backend>>)

  type PathKeeper<!B> = IngressPath<B> -> seq<IngressPath<B>>
  type RuleKeeper<!B> = HostRule<B> -> seq<HostRule<B>>

  ghost function KeptPath<B>(host: string, prohibited: seq<ProhibitedTarget>): PathKeeper<B> {
    (p: IngressPath<B>) => if Prohibited(Target(host, p.path), prohibited) then [] else [p]
  }

  /** The paths of a host that no prohibited target covers, in order. */
  ghost function KeptPaths<B>(host: string, paths: seq<IngressPath<B>>,
                              prohibited: seq<ProhibitedTarget>): seq<IngressPath<B>> {
    Collect(paths, KeptPath(host, prohibited))
  }

  /** What is left of one rule: nothing or one rule. */
  ghost function Left<B>(rule: HostRule<B>, prohibited: seq<ProhibitedTarget>): seq<HostRule<B>> {
    if rule.http.None? then []
    else if rule.http.value.paths.None? then
      if Prohibited(Target(rule.host, ""), prohibited) then [] else [rule]
    else
      WithPaths(rule.host, KeptPaths(rule.host, rule.http.value.paths.value, prohibited))
  }

  function WithPaths<B>(host: string, paths: seq<IngressPath<B>>): seq<HostRule<B>> {
    if paths == [] then [] else [HostRule(host, Some(Http(Some(paths))))]
  }

  ghost function KeptRule<B>(prohibited: seq<ProhibitedTarget>): RuleKeeper<B> {
    (rule: HostRule<B>) => Left(rule, prohibited)
  }

  /** Without prohibited targets nothing is pruned, not even a rule without an HTTP section. */
  ghost function Pruned<B>(rules: seq<HostRule<B>>, prohibited: seq<ProhibitedTarget>): seq<HostRule<B>> {
    if prohibited == [] then rules else Collect(rules, KeptRule(prohibited))
  }

  method PrunePaths<B>(host: string, paths: seq<IngressPath<B>>, prohibited: seq<ProhibitedTarget>,
                       blacklist: seq<Target>)
    returns (left: seq<IngressPath<B>>)
    requires blacklist == Entries(prohibited)
    ensures left == KeptPaths(host, paths, prohibited)
  {
    left := [];
    var target := Target(host, "");
    for i := 0 to |paths|
      invariant left == Collect(paths[..i], KeptPath(host, prohibited))
      invariant target.host == host
    {
      CollectSnoc(paths, KeptPath(host, prohibited), i);
      target := target.(path := paths[i].path);
      var hit := IsBlacklisted(target, blacklist);
      EntriesSay(target, prohibited);
      if hit { continue; }
      left := left + [paths[i]];
    }
    assert paths[..|paths|] == paths;
  }

  method PruneRule<B>(rule: HostRule<B>, prohibited: seq<ProhibitedTarget>, blacklist: seq<Target>)
    returns (left: seq<HostRule<B>>)
    requires blacklist == Entries(prohibited)
    ensures left == KeptRule<B>(prohibited)(rule)
  {
    if rule.http.None? { return []; }
    if rule.http.value.paths.None? {
      var hit := IsBlacklisted(Target(rule.host, ""), blacklist);
      EntriesSay(Target(rule.host, ""), prohibited);
      return if hit then [] else [rule];
    }
    var paths := PrunePaths(rule.host, rule.http.value.paths.value, prohibited, blacklist);
    return if |paths| > 0 then [HostRule(rule.host, Some(Http(Some(paths))))] else [];
  }

  /** PruneIngressRules. */
  method PruneIngressRules<B>(rules: seq<HostRule<B>>, prohibited: seq<ProhibitedTarget>)
    returns (kept: seq<HostRule<B>>)
    ensures kept == Pruned(rules, prohibited)
  {
    if |rules| == 0 { return rules; }
    var blacklist := GetTargetBlacklist(prohibited);
    if |blacklist| == 0 { return rules; }
    kept := [];
    for k := 0 to |rules|
      invariant kept == Collect(rules[..k], KeptRule(prohibited))
    {
      CollectSnoc(rules, KeptRule(prohibited), k);
      var left := PruneRule(rules[k], prohibited, blacklist);
      kept := kept + left;
    }
    assert rules[..|rules|] == rules;
  }

  // ------------------------------------------------------------------- what is left, in its own terms

  /** The host and path pairs an ingress rule asks for; a rule with a nil list asks for the blank path. */
  ghost predicate RuleAsks<B>(rule: HostRule<B>, t: Target) {
    && rule.http.Some? && rule.host == t.host
    && match rule.http.value.paths
       case None => t.path == ""
       case Some(paths) => AskedPath(paths, t.path)
  }

  ghost predicate AskedPath<B>(paths: seq<IngressPath<B>>, path: string) {
    exists i :: 0 <= i < |paths| && paths[i].path == path
  }

  ghost predicate Asks<B>(rules: seq<HostRule<B>>, t: Target) {
    exists k :: 0 <= k < |rules| && RuleAsks(rules[k], t)
  }

  lemma {:induction false} KeptPathsAre<B>(host: string, paths: seq<IngressPath<B>>,
                                           prohibited: seq<ProhibitedTarget>, p: IngressPath<B>)
    ensures p in KeptPaths(host, paths, prohibited) <==> p in paths && !Prohibited(Target(host, p.path), prohibited)
  {
    CollectHas(paths, KeptPath(host, prohibited), p);
  }

  lemma {:induction false} KeptPathAsked<B>(host: string, paths: seq<IngressPath<B>>,
                                            prohibited: seq<ProhibitedTarget>, path: string)
    ensures AskedPath(KeptPaths(host, paths, prohibited), path) <==>
      AskedPath(paths, path) && !Prohibited(Target(host, path), prohibited)
  {
    var kept := KeptPaths(host, paths, prohibited);
    if i :| 0 <= i < |kept| && kept[i].path == path {
      KeptPathsAre(host, paths, prohibited, kept[i]);
    }
    if i :| 0 <= i < |paths| && paths[i].path == path {
      KeptPathsAre(host, paths, prohibited, paths[i]);
    }
  }

  /** One rule keeps exactly what it asked for and is not prohibited. */
  lemma {:induction false} LeftAsks<B>(rule: HostRule<B>, prohibited: seq<ProhibitedTarget>, t: Target)
    ensures Asks(Left(rule, prohibited), t) <==> RuleAsks(rule, t) && !Prohibited(t, prohibited)
  {
    var out := Left(rule, prohibited);
    assert t == Target(t.host, t.path);
    if rule.http.Some? && rule.http.value.paths.Some? {
      var paths := rule.http.value.paths.value;
      var kept := KeptPaths(rule.host, paths, prohibited);
      assert out != [] ==> out[0] == HostRule(rule.host, Some(Http(Some(kept))));
      if rule.host == t.host {
        KeptPathAsked(rule.host, paths, prohibited, t.path);
      }
      assert Asks(out, t) <==> rule.host == t.host && AskedPath(kept, t.path);
    } else {
      assert out != [] ==> out[0] == rule;
    }
  }

  lemma AsksConcat<B>(a: seq<HostRule<B>>, b: seq<HostRule<B>>, t: Target)
    ensures Asks(a + b, t) <==> Asks(a, t) || Asks(b, t)
  {
    var c := a + b;
    forall k | 0 <= k < |a| ensures c[k] == a[k] {}
    forall k | 0 <= k < |b| ensures c[|a| + k] == b[k] {}
    if k :| 0 <= k < |c| && RuleAsks(c[k], t) {
      assert k >= |a| ==> c[k] == b[k - |a|];
    }
  }

  lemma {:induction false} CollectedAsks<B>(rules: seq<HostRule<B>>, prohibited: seq<ProhibitedTarget>, t: Target)
    ensures Asks(Collect(rules, KeptRule(prohibited)), t) <==> Asks(rules, t) && !Prohibited(t, prohibited)
  {
    if rules != [] {
      var n := |rules| - 1;
      var f := KeptRule<B>(prohibited);
      var left := f(rules[n]);
      CollectedAsks(rules[..n], prohibited, t);
      LeftAsks(rules[n], prohibited, t);
      AsksConcat(Collect(rules[..n], f), left, t);
      assert rules == rules[..n] + [rules[n]];
      AsksConcat(rules[..n], [rules[n]], t);
      assert [rules[n]][0] == rules[n];
    }
  }

  /** Pruning removes the prohibited targets and nothing else. */
  lemma {:induction false} PrunedAsks<B>(rules: seq<HostRule<B>>, prohibited: seq<ProhibitedTarget>, t: Target)
    ensures Asks(Pruned(rules, prohibited), t) <==> Asks(rules, t) && !Prohibited(t, prohibited)
  {
    CollectedAsks(rules, prohibited, t);
  }

  // ------------------------------------------------------------------- paths with their backends, in order

  datatype Serving<Backend> = Serving(host: string, path: IngressPath<Backend>)

  ghost function Tag<B>(host: string): IngressPath<B> -> seq<Serving<B>> {
    (p: IngressPath<B>) => [Serving(host, p)]
  }

  /** The paths of a rule with its host, in order. */
  ghost function ServedBy<B>(): HostRule<B> -> seq<Serving<B>> {
    (rule: HostRule<B>) =>
      if rule.http.None? || rule.http.value.paths.None? then []
      else Collect(rule.http.value.paths.value, Tag(rule.host))
  }

  ghost function Allowed<B>(prohibited: seq<ProhibitedTarget>): Serving<B> -> seq<Serving<B>> {
    (s: Serving<B>) => if Prohibited(Target(s.host, s.path.path), prohibited) then [] else [s]
  }

  lemma {:induction false} LeftServes<B>(rule: HostRule<B>, prohibited: seq<ProhibitedTarget>)
    ensures Collect(Left(rule, prohibited), ServedBy<B>()) == Collect(ServedBy<B>()(rule), Allowed(prohibited))
  {
    var out := Left(rule, prohibited);
    if out != [] { CollectOne(out[0], ServedBy<B>()); }
    if rule.http.Some? && rule.http.value.paths.Some? {
      var paths, host := rule.http.value.paths.value, rule.host;
      var kept := KeptPath<B>(host, prohibited);
      var both := (p: IngressPath<B>) => Collect(kept(p), Tag(host));
      assert Collect(out, ServedBy<B>()) == Collect(KeptPaths(host, paths, prohibited), Tag(host));
      CollectTwice(paths, kept, Tag(host), both);
      forall p: IngressPath<B> ensures Collect(Tag(host)(p), Allowed(prohibited)) == both(p) {
        CollectOne(Serving(host, p), Allowed(prohibited));
        if kept(p) != [] { CollectOne(p, Tag(host)); }
      }
      CollectTwice(paths, Tag(host), Allowed(prohibited), both);
    }
  }

  lemma {:induction false} AllAllowed<B>(served: seq<Serving<B>>)
    ensures Collect(served, Allowed([])) == served
  {
    if served != [] { AllAllowed(served[..|served| - 1]); }
  }

  /** The paths left, with host and backend, are those that are not prohibited, in the same order. */
  lemma {:induction false} PrunedServes<B>(rules: seq<HostRule<B>>, prohibited: seq<ProhibitedTarget>)
    ensures Collect(Pruned(rules, prohibited), ServedBy<B>()) ==
      Collect(Collect(rules, ServedBy<B>()), Allowed(prohibited))
  {
    if prohibited == [] {
      AllAllowed(Collect(rules, ServedBy<B>()));
    } else {
      var both := (rule: HostRule<B>) => Collect(Left(rule, prohibited), ServedBy<B>());
      forall rule: HostRule<B> ensures Collect(ServedBy<B>()(rule), Allowed(prohibited)) == both(rule) {
        LeftServes(rule, prohibited);
      }
      CollectTwice(rules, KeptRule(prohibited), ServedBy<B>(), both);
      CollectTwice(rules, ServedBy<B>(), Allowed(prohibited), both);
    }
  }

  // ------------------------------------------------------------------- pruning twice

  lemma ProhibitedConcat(t: Target, a: seq<ProhibitedTarget>, b: seq<ProhibitedTarget>)
    ensures Prohibited(t, a + b) <==> Prohibited(t, a) || Prohibited(t, b)
  {
    var c := a + b;
    forall k | 0 <= k < |a| ensures c[k] == a[k] {}
    forall k | 0 <= k < |b| ensures c[|a| + k] == b[k] {}
    if k :| 0 <= k < |c| && ProhibitedBy(t, c[k]) {
      assert k >= |a| ==> c[k] == b[k - |a|];
    }
  }

  lemma {:induction false} KeptPathTwice<B>(host: string, p: IngressPath<B>, a: seq<ProhibitedTarget>,
                                            b: seq<ProhibitedTarget>)
    ensures Collect(KeptPath<B>(host, a)(p), KeptPath(host, b)) == KeptPath<B>(host, a + b)(p)
  {
    ProhibitedConcat(Target(host, p.path), a, b);
    CollectOne(p, KeptPath(host, b));
  }

  lemma {:induction false} KeptPathsTwice<B>(host: string, paths: seq<IngressPath<B>>, a: seq<ProhibitedTarget>,
                                             b: seq<ProhibitedTarget>)
    ensures KeptPaths(host, KeptPaths(host, paths, a), b) == KeptPaths(host, paths, a + b)
  {
    forall p | p in paths ensures Collect(KeptPath<B>(host, a)(p), KeptPath(host, b)) == KeptPath<B>(host, a + b)(p) {
      KeptPathTwice(host, p, a, b);
    }
    CollectTwice(paths, KeptPath(host, a), KeptPath(host, b), KeptPath(host, a + b));
  }

  lemma {:induction false} LeftTwice<B>(rule: HostRule<B>, a: seq<ProhibitedTarget>, b: seq<ProhibitedTarget>)
    ensures Collect(KeptRule<B>(a)(rule), KeptRule(b)) == KeptRule<B>(a + b)(rule)
  {
    var once := Left(rule, a);
    if once != [] { CollectOne(once[0], KeptRule(b)); }
    if rule.http.Some? {
      if rule.http.value.paths.Some? {
        KeptPathsTwice(rule.host, rule.http.value.paths.value, a, b);
      } else {
        ProhibitedConcat(Target(rule.host, ""), a, b);
      }
    }
  }

  /** Pruning with some targets and then with others is pruning with all of them. */
  lemma {:induction false} PruneTwice<B>(rules: seq<HostRule<B>>, a: seq<ProhibitedTarget>, b: seq<ProhibitedTarget>)
    ensures Pruned(Pruned(rules, a), b) == Pruned(rules, a + b)
  {
    if a == [] {
      assert a + b == b;
    } else if b == [] {
      assert a + b == a;
    } else {
      forall rule | rule in rules ensures Collect(KeptRule<B>(a)(rule), KeptRule(b)) == KeptRule<B>(a + b)(rule) {
        LeftTwice(rule, a, b);
      }
      CollectTwice(rules, KeptRule(a), KeptRule(b), KeptRule(a + b));
    }
  }

  /** Targets that prohibit the same things leave the same of a rule. */
  lemma {:induction false} LeftSame<B>(rule: HostRule<B>, a: seq<ProhibitedTarget>, b: seq<ProhibitedTarget>)
    requires forall t :: Prohibited(t, a) <==> Prohibited(t, b)
    ensures Left(rule, a) == Left(rule, b)
  {
    if rule.http.Some? && rule.http.value.paths.Some? {
      CollectSame(rule.http.value.paths.value, KeptPath(rule.host, a), KeptPath(rule.host, b));
    }
  }

  lemma {:induction false} PruneIdempotent<B>(rules: seq<HostRule<B>>, prohibited: seq<ProhibitedTarget>)
    ensures Pruned(Pruned(rules, prohibited), prohibited) == Pruned(rules, prohibited)
  {
    PruneTwice(rules, prohibited, prohibited);
    var both := prohibited + prohibited;
    forall t ensures Prohibited(t, both) <==> Prohibited(t, prohibited) {
      ProhibitedConcat(t, prohibited, prohibited);
    }
    forall rule | rule in rules ensures KeptRule<B>(both)(rule) == KeptRule<B>(prohibited)(rule) {
      LeftSame(rule, both, prohibited);
    }
    CollectSame(rules, KeptRule(both), KeptRule(prohibited));
  }

  /** Pruning moves the paths behind a prohibited one up: the second path becomes the first, whose index
      names its path rule. */
  lemma PruningMovesUp<B>(host: string, a: IngressPath<B>, b: IngressPath<B>, prohibited: seq<ProhibitedTarget>)
    requires Prohibited(Target(host, a.path), prohibited) && !Prohibited(Target(host, b.path), prohibited)
    ensures KeptPaths(host, [a, b], prohibited) == [b]
  {
    var f := KeptPath<B>(host, prohibited);
    CollectOne(a, f);
    CollectOne(b, f);
    CollectConcat([a], [b], f);
    assert [a] + [b] == [a, b];
  }
}
