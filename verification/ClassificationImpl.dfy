/**
 The loops of the classification and of the merges by name, proved against Classification
 (pkg/brownfield). A result of None is a nil dereference.
 */
module ClassificationImpl {
  import opened Resources
  import opened Iteration
  import opened Strings
  import opened Targets
  import opened Prohibition
  import opened Classification

  // ----------------------------------------------------------------------- indexes and targets

  /** The index holds the last resource of each name. */
  ghost predicate Holds<B>(index: map<string, Resource<B>>, xs: seq<Resource<B>>) {
    && (forall n :: n in index <==> LastNamed(xs, n).Some?)
    && (forall n :: n in index ==> LastNamed(xs, n) == Some(index[n]))
  }

  lemma HoldsSnoc<B>(index: map<string, Resource<B>>, xs: seq<Resource<B>>, x: Resource<B>)
    requires Holds(index, xs)
    ensures Holds(index[x.name := x], xs + [x])
  {
    assert (xs + [x])[..|xs|] == xs;
    forall n ensures LastNamed(xs + [x], n) == if n == x.name then Some(x) else LastNamed(xs, n) {}
  }

  method IndexByName<B>(xs: seq<Resource<B>>) returns (index: map<string, Resource<B>>)
    ensures Holds(index, xs)
  {
    index := AddBucket(map[], [], xs);
    assert [] + xs == xs;
  }

  type Index = map<string, seq<Target>>

  function At(index: Index, n: string): seq<Target> {
    if n in index then index[n] else []
  }

  /** The parts filed under `n`, one after the other. */
  ghost function Gather(keys: seq<Option<string>>, parts: seq<seq<Target>>, n: string): seq<Target>
    requires |keys| == |parts|
  {
    if keys == [] then []
    else
      var k := |keys| - 1;
      Gather(keys[..k], parts[..k], n) + if keys[k] == Some(n) then parts[k] else []
  }

  ghost function RuleKeys(er: Existing): (r: seq<Option<string>>)
    ensures |r| == |er.rules| && forall i :: 0 <= i < |r| ==> r[i] == Some(er.rules[i].name)
  {
    seq(|er.rules|, i requires 0 <= i < |er.rules| => Some(er.rules[i].name))
  }

  ghost function RuleParts(er: Existing): (r: seq<seq<Target>>)
    ensures |r| == |er.rules| && forall i :: 0 <= i < |r| ==> r[i] == TargetsOf(er, er.rules[i])
  {
    seq(|er.rules|, i requires 0 <= i < |er.rules| => TargetsOf(er, er.rules[i]))
  }

  function MapKey(rule: Rule): Option<string> {
    if rule.pathMap.Some? then Some(LastChunk(rule.pathMap.value)) else None
  }

  ghost function MapKeys(er: Existing): (r: seq<Option<string>>)
    ensures |r| == |er.rules| && forall i :: 0 <= i < |r| ==> r[i] == MapKey(er.rules[i])
  {
    seq(|er.rules|, i requires 0 <= i < |er.rules| => MapKey(er.rules[i]))
  }

  ghost function MapParts(er: Existing): (r: seq<seq<Target>>)
    ensures |r| == |er.rules| && forall i :: 0 <= i < |r| ==> r[i] == MapTargetsOf(er, er.rules[i])
  {
    seq(|er.rules|, i requires 0 <= i < |er.rules| => MapTargetsOf(er, er.rules[i]))
  }

  /** `after` is `before` with `more` appended under `key`. */
  ghost predicate Appended(before: Index, after: Index, key: Option<string>, more: seq<Target>) {
    forall x :: At(after, x) == At(before, x) + if key == Some(x) then more else []
  }

  ghost predicate Gathered(index: Index, keys: seq<Option<string>>, parts: seq<seq<Target>>, k: nat) {
    k <= |keys| == |parts| && forall n :: At(index, n) == Gather(keys[..k], parts[..k], n)
  }

  lemma GatheredSnoc(before: Index, after: Index, keys: seq<Option<string>>, parts: seq<seq<Target>>, k: nat)
    requires Gathered(before, keys, parts, k) && k < |keys| && Appended(before, after, keys[k], parts[k])
    ensures Gathered(after, keys, parts, k + 1)
  {
    assert keys[..k + 1][..k] == keys[..k] && parts[..k + 1][..k] == parts[..k];
  }

  lemma Associative<T>(s: seq<T>, a: seq<T>, b: seq<T>)
    ensures (s + a) + b == s + (a + b)
  {
  }

  lemma AppendedTwice(before: Index, mid: Index, after: Index, key: Option<string>, a: seq<Target>, b: seq<Target>)
    requires Appended(before, mid, key, a) && Appended(mid, after, key, b)
    ensures Appended(before, after, key, a + b)
  {
    forall x ensures At(after, x) == At(before, x) + if key == Some(x) then a + b else [] {
      if key == Some(x) {
        Associative(At(before, x), a, b);
      } else {
        assert At(mid, x) == At(before, x);
      }
    }
  }

  method Append(index: Index, n: string, t: Target) returns (r: Index)
    ensures Appended(index, r, Some(n), [t])
  {
    r := index[n := At(index, n) + [t]];
  }

  method AppendPaths(index: Index, n: string, host: string, paths: seq<string>) returns (r: Index)
    ensures Appended(index, r, Some(n), WithHost(host, paths))
  {
    r := index;
    ghost var all := WithHost(host, paths);
    for j := 0 to |paths|
      invariant Appended(index, r, Some(n), all[..j])
    {
      ghost var before := r;
      r := Append(r, n, Target(host, paths[j]));
      AppendedTwice(index, before, r, Some(n), all[..j], [Target(host, paths[j])]);
      assert all[..j + 1] == all[..j] + [Target(host, paths[j])];
    }
    assert all[..|paths|] == all;
  }

  method AppendPathTargets(index: Index, n: string, host: string, pathRules: seq<PathRule<string>>) returns (r: Index)
    ensures Appended(index, r, Some(n), PathTargets(host, pathRules))
  {
    r := index;
    for i := 0 to |pathRules|
      invariant Appended(index, r, Some(n), PathTargets(host, pathRules[..i]))
    {
      assert pathRules[..i + 1][..i] == pathRules[..i];
      if pathRules[i].paths.None? {
        assert PathTargets(host, pathRules[..i + 1]) == PathTargets(host, pathRules[..i]);
        continue;
      }
      var paths := pathRules[i].paths.value;
      ghost var sofar, before := PathTargets(host, pathRules[..i]), r;
      r := AppendPaths(r, n, host, paths);
      AppendedTwice(index, before, r, Some(n), sofar, WithHost(host, paths));
      assert PathTargets(host, pathRules[..i + 1]) == sofar + WithHost(host, paths);
    }
    assert pathRules[..|pathRules|] == pathRules;
  }

  /** getHostNameForRoutingRule. */
  method GetHostName(er: Existing, rule: Rule, listeners: map<string, ExistingListener>) returns (r: Option<string>)
    requires Holds(listeners, er.listeners)
    ensures r == HostOf(er, rule)
  {
    if rule.listener.None? { return None; }
    var name := LastChunk(rule.listener.value);
    if name !in listeners { return None; }
    var l := listeners[name];
    return Some(if l.body.hostName.Some? then l.body.hostName.value else "");
  }

  /** getPathRules; the outer None is the nil dereference, a map that is not found has no path rules. */
  method GetPathRules(er: Existing, rule: Rule, pathMaps: map<string, ExistingPathMap>)
    returns (r: Option<seq<PathRule<string>>>)
    requires Holds(pathMaps, er.pathMaps)
    ensures r.None? <==> MapOf(er, rule).Some? && MapOf(er, rule).value.body.pathRules.None?
    ensures r.Some? ==> r.value == if MapOf(er, rule).None? then [] else MapOf(er, rule).value.body.pathRules.value
  {
    if rule.pathMap.None? { return Some([]); }
    var name := LastChunk(rule.pathMap.value);
    if name !in pathMaps { return Some([]); }
    return pathMaps[name].body.pathRules;
  }

  /** One round of getRuleToTargets. */
  method AppendTargetsOf(er: Existing, rule: Rule, listeners: map<string, ExistingListener>,
                         pathMaps: map<string, ExistingPathMap>, byRule: Index, byMap: Index)
    returns (r: Option<(Index, Index)>)
    requires Holds(listeners, er.listeners) && Holds(pathMaps, er.pathMaps)
    ensures r.None? <==> LacksRules(er, rule)
    ensures r.Some? ==> Appended(byRule, r.value.0, Some(rule.name), TargetsOf(er, rule))
    ensures r.Some? ==> Appended(byMap, r.value.1, MapKey(rule), MapTargetsOf(er, rule))
  {
    var host := GetHostName(er, rule, listeners);
    if host.None? { return Some((byRule, byMap)); }
    var pathRules := GetPathRules(er, rule, pathMaps);
    if pathRules.None? { return None; }
    ghost var all := PathTargets(host.value, pathRules.value);
    assert MapTargetsOf(er, rule) == all;
    var byRule', byMap' := AppendBoth(byRule, byMap, rule.name, MapKey(rule), host.value, pathRules.value);
    return Some((byRule', byMap'));
  }

  method AppendBoth(byRule: Index, byMap: Index, ruleName: string, mapKey: Option<string>, host: string,
                    pathRules: seq<PathRule<string>>)
    returns (byRule': Index, byMap': Index)
    requires mapKey.None? ==> pathRules == []
    ensures Appended(byRule, byRule', Some(ruleName), [Target(host, "")] + PathTargets(host, pathRules))
    ensures Appended(byMap, byMap', mapKey, PathTargets(host, pathRules))
  {
    var start := Append(byRule, ruleName, Target(host, ""));
    byRule' := AppendPathTargets(start, ruleName, host, pathRules);
    AppendedTwice(byRule, start, byRule', Some(ruleName), [Target(host, "")], PathTargets(host, pathRules));
    if mapKey.None? {
      byMap' := byMap;
    } else {
      byMap' := AppendPathTargets(byMap, mapKey.value, host, pathRules);
    }
  }

  method Round(er: Existing, k: nat, listeners: map<string, ExistingListener>,
               pathMaps: map<string, ExistingPathMap>, byRule: Index, byMap: Index)
    returns (r: Option<(Index, Index)>)
    requires k < |er.rules| && Holds(listeners, er.listeners) && Holds(pathMaps, er.pathMaps)
    requires Gathered(byRule, RuleKeys(er), RuleParts(er), k) && Gathered(byMap, MapKeys(er), MapParts(er), k)
    requires !CrashAmong(er, k)
    ensures r.None? <==> CrashAmong(er, k + 1)
    ensures r.Some? ==>
      Gathered(r.value.0, RuleKeys(er), RuleParts(er), k + 1) && Gathered(r.value.1, MapKeys(er), MapParts(er), k + 1)
  {
    r := AppendTargetsOf(er, er.rules[k], listeners, pathMaps, byRule, byMap);
    if r.Some? {
      GatheredSnoc(byRule, r.value.0, RuleKeys(er), RuleParts(er), k);
      GatheredSnoc(byMap, r.value.1, MapKeys(er), MapParts(er), k);
    }
  }

  /** getRuleToTargets. */
  method GetRuleToTargets(er: Existing) returns (r: Option<(Index, Index)>)
    ensures r.None? <==> TargetsCrash(er)
    ensures r.Some? ==> Gathered(r.value.0, RuleKeys(er), RuleParts(er), |er.rules|)
    ensures r.Some? ==> Gathered(r.value.1, MapKeys(er), MapParts(er), |er.rules|)
  {
    var byRule: Index, byMap: Index := map[], map[];
    var listeners := IndexByName(er.listeners);
    var pathMaps := IndexByName(er.pathMaps);
    for k := 0 to |er.rules|
      invariant !CrashAmong(er, k)
      invariant Gathered(byRule, RuleKeys(er), RuleParts(er), k)
      invariant Gathered(byMap, MapKeys(er), MapParts(er), k)
    {
      var next := Round(er, k, listeners, pathMaps, byRule, byMap);
      if next.None? {
        CrashStays(er, k + 1, |er.rules|);
        return None;
      }
      byRule, byMap := next.value.0, next.value.1;
    }
    return Some((byRule, byMap));
  }

  // ----------------------------------------------------------------------- rules and path maps

  method AnyBlacklisted(er: Existing, targets: seq<Target>, blacklist: seq<Target>) returns (r: bool)
    requires blacklist == Entries(er.prohibited)
    ensures r == Hit(er, targets)
  {
    for i := 0 to |targets|
      invariant forall j :: 0 <= j < i ==> !Prohibited(targets[j], er.prohibited)
    {
      var hit := IsBlacklisted(targets[i], blacklist);
      EntriesSay(targets[i], er.prohibited);
      if hit { return true; }
    }
    return false;
  }

  lemma {:induction false} HitConcat(er: Existing, a: seq<Target>, b: seq<Target>)
    ensures Hit(er, a + b) <==> Hit(er, a) || Hit(er, b)
  {
    forall t ensures t in a + b <==> t in a || t in b {}
  }

  /** The targets gathered under a name are hit when one of its parts is. */
  lemma {:induction false} GatherHit(er: Existing, keys: seq<Option<string>>, parts: seq<seq<Target>>, n: string)
    requires |keys| == |parts|
    ensures Hit(er, Gather(keys, parts, n)) <==> exists i :: 0 <= i < |keys| && keys[i] == Some(n) && Hit(er, parts[i])
  {
    if keys != [] {
      var k := |keys| - 1;
      var ks, ps := keys[..k], parts[..k];
      GatherHit(er, ks, ps, n);
      HitConcat(er, Gather(ks, ps, n), if keys[k] == Some(n) then parts[k] else []);
      assert forall i :: 0 <= i < k ==> keys[i] == ks[i] && parts[i] == ps[i];
    }
  }

  lemma {:induction false} RuleHit(er: Existing, index: Index, rule: Rule)
    requires Gathered(index, RuleKeys(er), RuleParts(er), |er.rules|)
    ensures Hit(er, At(index, rule.name)) <==> RuleTest(er)(rule)
  {
    var keys, parts := RuleKeys(er), RuleParts(er);
    assert keys[..|er.rules|] == keys && parts[..|er.rules|] == parts;
    GatherHit(er, keys, parts, rule.name);
    if RuleProhibited(er, rule) {
      var r :| r in er.rules && r.name == rule.name && Hit(er, TargetsOf(er, r));
      var i :| 0 <= i < |er.rules| && er.rules[i] == r;
      assert keys[i] == Some(rule.name) && Hit(er, parts[i]);
    }
  }

  lemma {:induction false} MapHit(er: Existing, index: Index, m: ExistingPathMap)
    requires Gathered(index, MapKeys(er), MapParts(er), |er.rules|)
    ensures Hit(er, At(index, m.name)) <==> MapTest(er)(m)
  {
    var keys, parts := MapKeys(er), MapParts(er);
    assert keys[..|er.rules|] == keys && parts[..|er.rules|] == parts;
    GatherHit(er, keys, parts, m.name);
    if MapProhibited(er, m) {
      var r :| r in er.rules && LeadsTo(r, m.name) && Hit(er, MapTargetsOf(er, r));
      var i :| 0 <= i < |er.rules| && er.rules[i] == r;
      assert keys[i] == Some(m.name) && Hit(er, parts[i]);
    }
  }

  /** The elements that pass the test, or those that fail it, in order. */
  ghost function Where<T>(all: seq<T>, test: T -> bool, pass: bool): seq<T> {
    if all == [] then []
    else
      var n := |all| - 1;
      Where(all[..n], test, pass) + if test(all[n]) == pass then [all[n]] else []
  }

  lemma WhereSnoc<T>(all: seq<T>, test: T -> bool, pass: bool, k: nat)
    requires k < |all|
    ensures Where(all[..k + 1], test, pass) == Where(all[..k], test, pass) + if test(all[k]) == pass
      then [all[k]] else []
  {
    assert all[..k + 1][..k] == all[..k];
  }

  lemma {:induction false} WhereHas<T>(all: seq<T>, test: T -> bool, pass: bool, x: T)
    ensures x in Where(all, test, pass) <==> x in all && test(x) == pass
  {
    if all != [] { WhereHas(all[..|all| - 1], test, pass, x); }
  }

  ghost function RuleTest(er: Existing): Rule -> bool { r => RuleProhibited(er, r) }
  ghost function MapTest(er: Existing): ExistingPathMap -> bool { m => MapProhibited(er, m) }
  ghost function NameTest<B>(names: set<string>): Resource<B> -> bool { (x: Resource<B>) => x.name in names }

  method RuleIsBlacklisted(er: Existing, index: Index, blacklist: seq<Target>, rule: Rule) returns (hit: bool)
    requires Gathered(index, RuleKeys(er), RuleParts(er), |er.rules|)
    requires blacklist == Entries(er.prohibited)
    ensures hit == RuleTest(er)(rule)
  {
    hit := AnyBlacklisted(er, At(index, rule.name), blacklist);
    RuleHit(er, index, rule);
  }

  method MapIsBlacklisted(er: Existing, index: Index, blacklist: seq<Target>, m: ExistingPathMap) returns (hit: bool)
    requires Gathered(index, MapKeys(er), MapParts(er), |er.rules|)
    requires blacklist == Entries(er.prohibited)
    ensures hit == MapTest(er)(m)
  {
    hit := AnyBlacklisted(er, At(index, m.name), blacklist);
    MapHit(er, index, m);
  }

  /** GetBlacklistedRoutingRules: the prohibited rules and the others. */
  method GetBlacklistedRoutingRules(er: Existing) returns (r: Option<(seq<Rule>, seq<Rule>)>)
    ensures r.None? <==> TargetsCrash(er)
    ensures r.Some? ==> r.value.0 == Where(er.rules, RuleTest(er), true)
    ensures r.Some? ==> r.value.1 == Where(er.rules, RuleTest(er), false)
  {
    var blacklist := GetTargetBlacklist(er.prohibited);
    var targets := GetRuleToTargets(er);
    if targets.None? { return None; }
    var yes, no := SplitRules(er, targets.value.0, blacklist);
    return Some((yes, no));
  }

  method SplitRules(er: Existing, index: Index, blacklist: seq<Target>) returns (yes: seq<Rule>, no: seq<Rule>)
    requires Gathered(index, RuleKeys(er), RuleParts(er), |er.rules|) && blacklist == Entries(er.prohibited)
    ensures yes == Where(er.rules, RuleTest(er), true)
    ensures no == Where(er.rules, RuleTest(er), false)
  {
    yes, no := [], [];
    for k := 0 to |er.rules|
      invariant yes == Where(er.rules[..k], RuleTest(er), true)
      invariant no == Where(er.rules[..k], RuleTest(er), false)
    {
      WhereSnoc(er.rules, RuleTest(er), true, k);
      WhereSnoc(er.rules, RuleTest(er), false, k);
      var hit := RuleIsBlacklisted(er, index, blacklist, er.rules[k]);
      if hit {
        yes := yes + [er.rules[k]];
        continue;
      }
      no := no + [er.rules[k]];
    }
    assert er.rules[..|er.rules|] == er.rules;
  }

  /** GetBlacklistedPathMaps. */
  method GetBlacklistedPathMaps(er: Existing) returns (r: Option<(seq<ExistingPathMap>, seq<ExistingPathMap>)>)
    ensures r.None? <==> TargetsCrash(er)
    ensures r.Some? ==> r.value.0 == Where(er.pathMaps, MapTest(er), true)
    ensures r.Some? ==> r.value.1 == Where(er.pathMaps, MapTest(er), false)
  {
    var blacklist := GetTargetBlacklist(er.prohibited);
    var targets := GetRuleToTargets(er);
    if targets.None? { return None; }
    var yes, no := SplitMaps(er, targets.value.1, blacklist);
    return Some((yes, no));
  }

  method SplitMaps(er: Existing, index: Index, blacklist: seq<Target>)
    returns (yes: seq<ExistingPathMap>, no: seq<ExistingPathMap>)
    requires Gathered(index, MapKeys(er), MapParts(er), |er.rules|) && blacklist == Entries(er.prohibited)
    ensures yes == Where(er.pathMaps, MapTest(er), true)
    ensures no == Where(er.pathMaps, MapTest(er), false)
  {
    yes, no := [], [];
    for k := 0 to |er.pathMaps|
      invariant yes == Where(er.pathMaps[..k], MapTest(er), true)
      invariant no == Where(er.pathMaps[..k], MapTest(er), false)
    {
      WhereSnoc(er.pathMaps, MapTest(er), true, k);
      WhereSnoc(er.pathMaps, MapTest(er), false, k);
      var hit := MapIsBlacklisted(er, index, blacklist, er.pathMaps[k]);
      if hit {
        yes := yes + [er.pathMaps[k]];
        continue;
      }
      no := no + [er.pathMaps[k]];
    }
    assert er.pathMaps[..|er.pathMaps|] == er.pathMaps;
  }

  // ----------------------------------------------------------------------- pools, settings, redirects

  function RuleRef(k: Kind, r: Rule): Option<string> {
    match k case Pool => r.pool case Settings => r.settings case Redirect => r.redirect
  }

  /** The reference looked up, and whether that is a nil dereference: settings are only looked at beside a
      pool, and then they have to be there. */
  function Recorded(k: Kind, pool: Option<string>, settings: Option<string>, redirect: Option<string>): Option<string> {
    match k
    case Pool => pool
    case Settings => if pool.Some? then settings else None
    case Redirect => redirect
  }

  predicate PathRuleLacks(k: Kind, r: PathRule<string>) {
    k == Settings && r.pool.Some? && r.settings.None?
  }

  ghost predicate MapLacks(k: Kind, p: Props) {
    || (k == Settings && p.pool.Some? && p.settings.None?)
    || (p.pathRules.Some? && exists r :: r in p.pathRules.value && PathRuleLacks(k, r))
  }

  ghost predicate RefsCrash(er: Existing, k: Kind) {
    TargetsCrash(er) || exists m :: m in er.pathMaps && MapProhibited(er, m) && MapLacks(k, m.body)
  }

  ghost function PathRuleNames(k: Kind): PathRule<string> -> seq<string> {
    (r: PathRule<string>) =>
      var ref := Recorded(k, r.pool, r.settings, r.redirect);
      if ref.Some? then [LastChunk(ref.value)] else []
  }

  method NamesInPathRule(k: Kind, rule: PathRule<string>) returns (r: Option<seq<string>>)
    ensures r.None? <==> PathRuleLacks(k, rule)
    ensures r.Some? ==> r.value == PathRuleNames(k)(rule)
  {
    if PathRuleLacks(k, rule) { return None; }
    var name := Recorded(k, rule.pool, rule.settings, rule.redirect);
    return Some(if name.Some? then [LastChunk(name.value)] else []);
  }

  method PathRulesNames(k: Kind, rules: seq<PathRule<string>>) returns (r: Option<set<string>>)
    ensures r.None? <==> exists x :: x in rules && PathRuleLacks(k, x)
    ensures r.Some? ==> forall n :: n in r.value <==> n in Collect(rules, PathRuleNames(k))
  {
    var names: seq<string> := [];
    for i := 0 to |rules|
      invariant forall j :: 0 <= j < i ==> !PathRuleLacks(k, rules[j])
      invariant names == Collect(rules[..i], PathRuleNames(k))
    {
      var more := NamesInPathRule(k, rules[i]);
      if more.None? { return None; }
      CollectSnoc(rules, PathRuleNames(k), i);
      names := names + more.value;
    }
    assert rules[..|rules|] == rules;
    return Some(set n | n in names);
  }

  lemma {:induction false} PathRulesNamesAre(k: Kind, rules: seq<PathRule<string>>, n: string)
    ensures n in Collect(rules, PathRuleNames(k)) <==> exists x :: x in rules && PathRuleRecords(k, x, n)
  {
    CollectHas(rules, PathRuleNames(k), n);
    forall x ensures n in PathRuleNames(k)(x) <==> PathRuleRecords(k, x, n) {}
  }

  /** The names one path map adds. */
  method MapNames(k: Kind, p: Props) returns (r: Option<set<string>>)
    ensures r.None? <==> MapLacks(k, p)
    ensures r.Some? ==> forall n :: n in r.value <==> MapRecords(k, p, n)
  {
    if k == Settings && p.pool.Some? && p.settings.None? { return None; }
    var name := Recorded(k, p.pool, p.settings, p.redirect);
    var names := if name.Some? then {LastChunk(name.value)} else {};
    if p.pathRules.None? { return Some(names); }
    var more := PathRulesNames(k, p.pathRules.value);
    if more.None? { return None; }
    forall n ensures n in more.value <==> exists x :: x in p.pathRules.value && PathRuleRecords(k, x, n) {
      PathRulesNamesAre(k, p.pathRules.value, n);
    }
    return Some(names + more.value);
  }

  method RulesNames(k: Kind, rules: seq<Rule>) returns (names: set<string>)
    ensures forall n :: n in names <==> exists r :: r in rules && RuleUses(k, r, n)
  {
    names := {};
    for i := 0 to |rules|
      invariant forall n :: n in names <==> exists j :: 0 <= j < i && RuleUses(k, rules[j], n)
    {
      if RuleRef(k, rules[i]).Some? {
        names := names + {LastChunk(RuleRef(k, rules[i]).value)};
      }
    }
  }

  /** getBlacklistedPoolsSet, getBlacklistedSettingsSet and getBlacklistedRedirectsSet. */
  method GetBlacklistedNames(er: Existing, k: Kind) returns (r: Option<set<string>>)
    ensures r.None? <==> RefsCrash(er, k)
    ensures r.Some? ==> forall n :: n in r.value <==> RefProhibited(er, k, n)
  {
    var rules := GetBlacklistedRoutingRules(er);
    if rules.None? { return None; }
    var names := RulesNames(k, rules.value.0);
    var maps := GetBlacklistedPathMaps(er);
    var more := MapsNames(k, maps.value.0);
    WhereRules(er, rules.value.0);
    WhereMaps(er, maps.value.0);
    if more.None? { return None; }
    return Some(names + more.value);
  }

  lemma WhereRules(er: Existing, yes: seq<Rule>)
    requires yes == Where(er.rules, RuleTest(er), true)
    ensures forall r :: r in yes <==> r in er.rules && RuleProhibited(er, r)
  {
    forall r ensures r in yes <==> r in er.rules && RuleProhibited(er, r) {
      WhereHas(er.rules, RuleTest(er), true, r);
    }
  }

  lemma WhereMaps(er: Existing, yes: seq<ExistingPathMap>)
    requires yes == Where(er.pathMaps, MapTest(er), true)
    ensures forall m :: m in yes <==> m in er.pathMaps && MapProhibited(er, m)
  {
    forall m ensures m in yes <==> m in er.pathMaps && MapProhibited(er, m) {
      WhereHas(er.pathMaps, MapTest(er), true, m);
    }
  }

  method MapsNames(k: Kind, maps: seq<ExistingPathMap>) returns (r: Option<set<string>>)
    ensures r.None? <==> exists m :: m in maps && MapLacks(k, m.body)
    ensures r.Some? ==> forall n :: n in r.value <==> exists m :: m in maps && MapRecords(k, m.body, n)
  {
    var names := {};
    for i := 0 to |maps|
      invariant forall j :: 0 <= j < i ==> !MapLacks(k, maps[j].body)
      invariant forall n :: n in names <==> exists j :: 0 <= j < i && MapRecords(k, maps[j].body, n)
    {
      var more := MapNames(k, maps[i].body);
      if more.None? { return None; }
      names := names + more.value;
    }
    return Some(names);
  }

  /** The second half of GetBlacklistedPools and its likes. */
  method SplitByName<B>(xs: seq<Resource<B>>, names: set<string>) returns (yes: seq<Resource<B>>, no: seq<Resource<B>>)
    ensures yes == Where(xs, NameTest(names), true)
    ensures no == Where(xs, NameTest(names), false)
  {
    yes, no := [], [];
    for i := 0 to |xs|
      invariant yes == Where(xs[..i], NameTest(names), true)
      invariant no == Where(xs[..i], NameTest(names), false)
    {
      WhereSnoc(xs, NameTest(names), true, i);
      WhereSnoc(xs, NameTest(names), false, i);
      if xs[i].name in names {
        yes := yes + [xs[i]];
        continue;
      }
      no := no + [xs[i]];
    }
    assert xs[..|xs|] == xs;
  }

  ghost function RefTest<B>(er: Existing,
                            k: Kind): Resource<B> -> bool { (x: Resource<B>) => RefProhibited(er, k, x.name) }

  lemma {:induction false} WhereSame<T>(all: seq<T>, a: T -> bool, b: T -> bool, pass: bool)
    requires forall x :: x in all ==> a(x) == b(x)
    ensures Where(all, a, pass) == Where(all, b, pass)
  {
    if all != [] { WhereSame(all[..|all| - 1], a, b, pass); }
  }

  /** GetBlacklistedPools, GetBlacklistedHTTPSettings and GetBlacklistedRedirects. */
  method GetBlacklisted<B(!new)>(er: Existing, k: Kind, xs: seq<Resource<B>>)
    returns (r: Option<(seq<Resource<B>>, seq<Resource<B>>)>)
    ensures r.None? <==> RefsCrash(er, k)
    ensures r.Some? ==> r.value.0 == Where(xs, RefTest(er, k), true) && r.value.1 == Where(xs, RefTest(er, k), false)
    ensures r.Some? ==> forall x :: x in r.value.0 <==> x in xs && RefProhibited(er, k, x.name)
  {
    var names := GetBlacklistedNames(er, k);
    if names.None? { return None; }
    var yes, no := SplitByName(xs, names.value);
    WhereSame(xs, NameTest(names.value), RefTest(er, k), true);
    WhereSame(xs, NameTest(names.value), RefTest(er, k), false);
    forall x ensures x in yes <==> x in xs && RefProhibited(er, k, x.name) {
      WhereHas(xs, RefTest(er, k), true, x);
    }
    return Some((yes, no));
  }

  // ----------------------------------------------------------------------- probes and listeners

  method ProbeNames(settings: seq<HttpSettings>) returns (names: set<string>)
    ensures forall n :: n in names <==> exists s :: s in settings && Names(s.body, n)
  {
    names := {};
    for i := 0 to |settings|
      invariant forall n :: n in names <==> exists j :: 0 <= j < i && Names(settings[j].body, n)
    {
      if settings[i].body.Some? {
        names := names + {LastChunk(settings[i].body.value)};
      }
    }
  }

  /** getBlacklistedProbesSet. */
  method GetBlacklistedProbes(er: Existing) returns (r: Option<set<string>>)
    ensures r.None? <==> RefsCrash(er, Settings)
    ensures r.Some? ==> forall n :: n in r.value <==> ProbeProhibited(er, n)
  {
    var settings := GetBlacklisted(er, Settings, er.settings);
    if settings.None? { return None; }
    var names := ProbeNames(settings.value.0);
    return Some(names);
  }

  method GetProhibitedHostnames(er: Existing) returns (hosts: set<string>)
    ensures forall h :: h in hosts <==> h != "" && exists p :: p in er.prohibited && p.host == h
  {
    hosts := {};
    for i := 0 to |er.prohibited|
      invariant forall h :: h in hosts <==> h != "" && exists j :: 0 <= j < i && er.prohibited[j].host == h
    {
      if |er.prohibited[i].host| != 0 {
        hosts := hosts + {er.prohibited[i].host};
      }
    }
  }

  method NamesByHost(listeners: seq<ExistingListener>, hosts: set<string>) returns (names: set<string>)
    ensures forall n :: n in names <==>
      exists l :: l in listeners && l.name == n && l.body.hostName.Some? && l.body.hostName.value in hosts
  {
    names := {};
    for i := 0 to |listeners|
      invariant forall n :: n in names <==>
        exists l :: l in listeners[..i] && l.name == n && l.body.hostName.Some? && l.body.hostName.value in hosts
    {
      var l := listeners[i];
      assert listeners[..i + 1] == listeners[..i] + [l];
      if l.body.hostName.None? { continue; }
      if l.body.hostName.value in hosts { names := names + {l.name}; }
    }
    assert listeners[..|listeners|] == listeners;
  }

  method NamesByProhibitedHost(er: Existing) returns (names: set<string>)
    ensures forall n :: n in names <==> HostNamed(er, n)
  {
    var hosts := GetProhibitedHostnames(er);
    names := NamesByHost(er.listeners, hosts);
    forall n ensures n in names <==> HostNamed(er, n) {
      if n in names {
        var l :| l in er.listeners && l.name == n && l.body.hostName.Some? && l.body.hostName.value in hosts;
        var p :| p in er.prohibited && p.host == l.body.hostName.value;
      }
    }
  }

  method NamesByRule(rules: seq<Rule>) returns (names: set<string>)
    ensures forall n :: n in names <==> exists r :: r in rules && Names(r.listener, n)
  {
    names := {};
    for i := 0 to |rules|
      invariant forall n :: n in names <==> exists j :: 0 <= j < i && Names(rules[j].listener, n)
    {
      if rules[i].listener.Some? {
        names := names + {LastChunk(rules[i].listener.value)};
      }
    }
  }

  /** getBlacklistedListenersSet. */
  method GetBlacklistedListeners(er: Existing) returns (r: Option<set<string>>)
    ensures r.None? <==> TargetsCrash(er)
    ensures r.Some? ==> forall n :: n in r.value <==> ListenerProhibited(er, n)
  {
    var byHost := NamesByProhibitedHost(er);
    var rules := GetBlacklistedRoutingRules(er);
    if rules.None? { return None; }
    var byRule := NamesByRule(rules.value.0);
    WhereRules(er, rules.value.0);
    return Some(byHost + byRule);
  }

  // ----------------------------------------------------------------------- merges

  method AddBucket<B>(uniq: map<string, Resource<B>>, ghost before: seq<Resource<B>>, bucket: seq<Resource<B>>)
    returns (r: map<string, Resource<B>>)
    requires Holds(uniq, before)
    ensures Holds(r, before + bucket)
  {
    r := uniq;
    assert before + bucket[..0] == before;
    for i := 0 to |bucket|
      invariant Holds(r, before + bucket[..i])
    {
      HoldsSnoc(r, before + bucket[..i], bucket[i]);
      r := r[bucket[i].name := bucket[i]];
      assert before + bucket[..i + 1] == before + bucket[..i] + [bucket[i]];
    }
    assert bucket[..|bucket|] == bucket;
  }

  /** MergePools, MergeHTTPSettings, MergeProbes and MergeRedirects: one resource per name, the last one. */
  method MergeByName<B(!new)>(buckets: seq<seq<Resource<B>>>) returns (merged: seq<Resource<B>>)
    ensures forall i, j :: 0 <= i < j < |merged| ==> merged[i].name != merged[j].name
    ensures forall x :: x in merged <==> LastOfName(Flatten(buckets), x)
  {
    var uniq: map<string, Resource<B>> := map[];
    for b := 0 to |buckets|
      invariant Holds(uniq, Flatten(buckets[..b]))
    {
      uniq := AddBucket(uniq, Flatten(buckets[..b]), buckets[b]);
      FlattenSnoc(buckets, b);
    }
    assert buckets[..|buckets|] == buckets;
    var order, values := ValuesInMapOrder(uniq);
    merged := values;
    assert forall i :: 0 <= i < |order| ==> values[i].name == order[i];
    forall x: Resource<B> ensures x in merged <==> LastOfName(Flatten(buckets), x) {
      LastNamedIs(Flatten(buckets), x);
      if LastNamed(Flatten(buckets), x.name) == Some(x) {
        assert x.name in uniq;
        var i :| 0 <= i < |order| && order[i] == x.name;
        assert values[i] == x;
      }
    }
  }

  lemma FlattenTwo<T>(a: seq<T>, b: seq<T>)
    ensures Flatten([a, b]) == a + b
  {
    assert [a, b][..1] == [a] && [a][..0] == [];
    assert Flatten([a]) == a;
  }

  /** On a regular gateway the classification does not crash. */
  lemma NoRefsCrash(er: Existing, k: Kind)
    requires Regular(er)
    ensures !TargetsCrash(er) && !RefsCrash(er, k)
  {
    TargetsCrashIff(er);
    forall m | m in er.pathMaps ensures !MapLacks(k, m.body) {
      assert Accompanied(m.body);
    }
  }

  ghost predicate ReachedByProhibited(er: Existing, k: Kind, n: string) {
    exists rule :: rule in er.rules && RuleProhibited(er, rule) && Reaches(er, rule, k, n)
  }

  ghost predicate ProbeOfProhibited(er: Existing, n: string) {
    exists rule :: rule in er.rules && RuleProhibited(er, rule) && ReachesProbe(er, rule, n)
  }

  ghost predicate NoneNamed<B(!new)>(xs: seq<Resource<B>>, n: string) {
    forall x :: x in xs ==> x.name != n
  }

  /** `x` is the last of ours with its name; or we have none of that name, it is the last existing one, and
      `kept` holds. */
  ghost predicate OursOrKept<B(!new)>(existing: seq<Resource<B>>, managed: seq<Resource<B>>, x: Resource<B>,
                                      kept: bool) {
    LastOfName(managed, x) || (kept && LastOfName(existing, x) && NoneNamed(managed, x.name))
  }

  lemma {:induction false} LastNamedConcat<B(!new)>(a: seq<Resource<B>>, b: seq<Resource<B>>, n: string)
    ensures LastNamed(a + b, n) == if LastNamed(b, n).Some? then LastNamed(b, n) else LastNamed(a, n)
  {
    if b == [] {
      assert a + b == a;
    } else {
      LastNamedConcat(a, b[..|b| - 1], n);
      assert (a + b)[..|a + b| - 1] == a + b[..|b| - 1];
    }
  }

  lemma {:induction false} LastNamedWhere<B(!new)>(xs: seq<Resource<B>>, names: set<string>, n: string)
    ensures LastNamed(Where(xs, NameTest(names), true), n) == if n in names then LastNamed(xs, n) else None
  {
    if xs != [] {
      var k := |xs| - 1;
      var before := Where(xs[..k], NameTest(names), true);
      LastNamedWhere(xs[..k], names, n);
      if xs[k].name in names {
        assert Where(xs, NameTest(names), true) == before + [xs[k]];
        assert (before + [xs[k]])[..|before|] == before;
      } else {
        assert Where(xs, NameTest(names), true) == before;
      }
    }
  }

  lemma {:induction false} MergedAre<B(!new)>(existing: seq<Resource<B>>, managed: seq<Resource<B>>, names: set<string>,
                                              x: Resource<B>)
    ensures LastOfName(Where(existing, NameTest(names), true) + managed, x) <==>
      OursOrKept(existing, managed, x, x.name in names)
  {
    var kept := Where(existing, NameTest(names), true);
    LastNamedIs(kept + managed, x);
    LastNamedIs(managed, x);
    LastNamedIs(existing, x);
    LastNamedConcat(kept, managed, x.name);
    LastNamedWhere(existing, names, x.name);
  }

  /** Of the existing pools, settings or redirects exactly those stay that a prohibited rule reaches and
      that we have none of the same name as; ours are all there. */
  method Retain<B(!new)>(er: Existing, k: Kind, existing: seq<Resource<B>>, managed: seq<Resource<B>>)
    returns (r: seq<Resource<B>>)
    requires Regular(er)
    ensures forall i, j :: 0 <= i < j < |r| ==> r[i].name != r[j].name
    ensures forall x :: x in r <==> OursOrKept(existing, managed, x, ReachedByProhibited(er, k, x.name))
  {
    NoRefsCrash(er, k);
    var names := GetBlacklistedNames(er, k);
    var yes, _ := SplitByName(existing, names.value);
    r := MergeByName([yes, managed]);
    FlattenTwo(yes, managed);
    forall x ensures x in r <==> OursOrKept(existing, managed, x, ReachedByProhibited(er, k, x.name)) {
      MergedAre(existing, managed, names.value, x);
      RefProhibitedIff(er, k, x.name);
    }
  }

  /** The same for the existing probes of settings that a prohibited rule reaches. */
  method RetainProbes<B(!new)>(er: Existing, existing: seq<Resource<B>>, managed: seq<Resource<B>>)
    returns (r: seq<Resource<B>>)
    requires Regular(er)
    ensures forall i, j :: 0 <= i < j < |r| ==> r[i].name != r[j].name
    ensures forall x :: x in r <==> OursOrKept(existing, managed, x, ProbeOfProhibited(er, x.name))
  {
    NoRefsCrash(er, Settings);
    var names := GetBlacklistedProbes(er);
    var yes, _ := SplitByName(existing, names.value);
    r := MergeByName([yes, managed]);
    FlattenTwo(yes, managed);
    forall x ensures x in r <==> OursOrKept(existing, managed, x, ProbeOfProhibited(er, x.name)) {
      MergedAre(existing, managed, names.value, x);
      ProbeProhibitedIff(er, x.name);
    }
  }
}
