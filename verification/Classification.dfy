/**
 Which existing resources of a shared gateway are prohibited: the classification follows
 references from routing rules to listeners, path maps, pools, settings, probes and redirects
 (pkg/brownfield/routing_rules.go, pathmaps.go, pools.go, http_settings.go, redirects.go,
 listeners.go, health_probes.go). References are resource IDs; what they name is the last chunk.
 */
module Classification {
  import opened Resources
  import opened Strings
  import opened Targets
  import opened Prohibition

  datatype Resource<Body> = Resource(name: string, body: Body)

  /** A listener's own fields; `hostNames` is the multi-host field. */
  datatype ListenerBody = ListenerBody(
    hostName: Option<string>,
    hostNames: seq<string>,
    https: bool,
    port: Option<string>,
    frontendIp: Option<string>
  )

  type Rule = RoutingRule<string>
  type Props = PathMapProps<string>
  type ExistingPathMap = Resource<Props>
  type ExistingListener = Resource<ListenerBody>
  /** The body of HTTP settings is the ID of their probe. */
  type HttpSettings = Resource<Option<string>>

  datatype Existing = Existing(
    rules: seq<Rule>,
    listeners: seq<ExistingListener>,
    pathMaps: seq<ExistingPathMap>,
    settings: seq<HttpSettings>,
    prohibited: seq<ProhibitedTarget>
  )

  /** What rules and path maps refer to in the same way. */
  datatype Kind = Pool | Settings | Redirect

  /** A map filled by name keeps the last resource of a name. */
  function LastNamed<B>(xs: seq<Resource<B>>, n: string): (r: Option<Resource<B>>)
    ensures r.Some? ==> r.value in xs && r.value.name == n
    ensures r.None? ==> forall x :: x in xs ==> x.name != n
  {
    if xs == [] then None
    else if xs[|xs| - 1].name == n then Some(xs[|xs| - 1])
    else LastNamed(xs[..|xs| - 1], n)
  }

  /** The resource is the last of its name. */
  ghost predicate LastOfName<B(!new)>(xs: seq<Resource<B>>, x: Resource<B>) {
    exists i :: 0 <= i < |xs| && xs[i] == x && forall j :: i < j < |xs| ==> xs[j].name != x.name
  }

  lemma {:induction false} LastNamedIs<B(!new)>(xs: seq<Resource<B>>, x: Resource<B>)
    ensures LastNamed(xs, x.name) == Some(x) <==> LastOfName(xs, x)
  {
    if xs != [] {
      var n := |xs| - 1;
      LastNamedIs(xs[..n], x);
      assert forall i :: 0 <= i < n ==> xs[..n][i] == xs[i];
      if xs[n].name == x.name {
        assert LastOfName(xs, x) ==> x == xs[n];
      } else if LastOfName(xs[..n], x) {
        var i :| 0 <= i < n && xs[..n][i] == x && forall j :: i < j < n ==> xs[..n][j].name != x.name;
        assert forall j :: i < j < |xs| ==> xs[j].name != x.name;
      }
    }
  }

  // ----------------------------------------------------------------------- targets

  /** The host a rule serves, or None when it has no listener or an unknown one. */
  function HostOf(er: Existing, rule: Rule): Option<string> {
    if rule.listener.None? then None
    else
      match LastNamed(er.listeners, LastChunk(rule.listener.value))
      case None => None
      case Some(l) => Some(if l.body.hostName.Some? then l.body.hostName.value else "")
  }

  /** The path map a rule leads to. */
  function MapOf(er: Existing, rule: Rule): Option<ExistingPathMap> {
    if rule.pathMap.None? then None else LastNamed(er.pathMaps, LastChunk(rule.pathMap.value))
  }

  function WithHost(host: string, paths: seq<string>): (r: seq<Target>)
    ensures |r| == |paths| && forall i :: 0 <= i < |paths| ==> r[i] == Target(host, paths[i])
  {
    seq(|paths|, i requires 0 <= i < |paths| => Target(host, paths[i]))
  }

  function PathTargets(host: string, pathRules: seq<PathRule<string>>): seq<Target> {
    if pathRules == [] then []
    else
      var n := |pathRules| - 1;
      PathTargets(host, pathRules[..n])
      + if pathRules[n].paths.None? then [] else WithHost(host, pathRules[n].paths.value)
  }

  /** Following a path map without a list of path rules is a nil dereference. */
  predicate LacksRules(er: Existing, rule: Rule) {
    HostOf(er, rule).Some? && MapOf(er, rule).Some? && MapOf(er, rule).value.body.pathRules.None?
  }

  predicate CrashAmong(er: Existing, k: nat)
    requires k <= |er.rules|
  {
    k > 0 && (CrashAmong(er, k - 1) || LacksRules(er, er.rules[k - 1]))
  }

  predicate TargetsCrash(er: Existing) {
    CrashAmong(er, |er.rules|)
  }

  lemma {:induction false} CrashStays(er: Existing, i: nat, k: nat)
    requires i <= k <= |er.rules| && CrashAmong(er, i)
    ensures CrashAmong(er, k)
  {
    if i < k { CrashStays(er, i, k - 1); }
  }

  lemma {:induction false} CrashFound(er: Existing, k: nat) returns (i: nat)
    requires k <= |er.rules| && CrashAmong(er, k)
    ensures i < k && LacksRules(er, er.rules[i])
  {
    if CrashAmong(er, k - 1) {
      i := CrashFound(er, k - 1);
    } else {
      i := k - 1;
    }
  }

  lemma {:induction false} TargetsCrashIff(er: Existing)
    ensures TargetsCrash(er) <==> exists r :: r in er.rules && LacksRules(er, r)
  {
    if TargetsCrash(er) {
      var i := CrashFound(er, |er.rules|);
      assert er.rules[i] in er.rules;
    }
    if r :| r in er.rules && LacksRules(er, r) {
      var i: nat :| i < |er.rules| && er.rules[i] == r;
      CrashStays(er, i + 1, |er.rules|);
    }
  }

  /** What a rule serves through its path map. */
  function MapTargetsOf(er: Existing, rule: Rule): seq<Target> {
    if HostOf(er, rule).None? || MapOf(er, rule).None? || LacksRules(er, rule) then []
    else PathTargets(HostOf(er, rule).value, MapOf(er, rule).value.body.pathRules.value)
  }

  /** What a rule serves: its host with the blank path, and the paths of its map. */
  function TargetsOf(er: Existing, rule: Rule): seq<Target> {
    if HostOf(er, rule).None? then [] else [Target(HostOf(er, rule).value, "")] + MapTargetsOf(er, rule)
  }

  // ----------------------------------------------------------------------- prohibited rules and path maps

  /** One of the targets is prohibited. */
  ghost predicate Hit(er: Existing, targets: seq<Target>) {
    exists t :: t in targets && Prohibited(t, er.prohibited)
  }

  /** Rules are classified by name: some rule of that name serves a prohibited target. */
  ghost predicate RuleProhibited(er: Existing, rule: Rule) {
    exists r :: r in er.rules && r.name == rule.name && Hit(er, TargetsOf(er, r))
  }

  /** The rule's listener has this host name: of the listeners with its name, the last one's. */
  ghost predicate HasHost(er: Existing, rule: Rule, host: string) {
    exists l :: LastOfName(er.listeners, l) && rule.listener.Some? && l.name == LastChunk(rule.listener.value)
                && host == (if l.body.hostName.Some? then l.body.hostName.value else "")
  }

  /** The path stands in a path rule of the rule's path map, the last one of that name. */
  ghost predicate HasMapPath(er: Existing, rule: Rule, path: string) {
    exists m, r ::
      && LastOfName(er.pathMaps, m) && rule.pathMap.Some? && m.name == LastChunk(rule.pathMap.value)
      && m.body.pathRules.Some? && r in m.body.pathRules.value && r.paths.Some? && path in r.paths.value
  }

  /** The rule's host is prohibited with the blank path or with a path of its path map. */
  ghost predicate ServesProhibitedTarget(er: Existing, rule: Rule) {
    exists host :: HasHost(er, rule, host) &&
      (|| Prohibited(Target(host, ""), er.prohibited)
       || exists path :: HasMapPath(er, rule, path) && Prohibited(Target(host, path), er.prohibited))
  }

  lemma {:induction false} HostIs(er: Existing, rule: Rule, host: string)
    ensures HostOf(er, rule) == Some(host) <==> HasHost(er, rule, host)
  {
    if rule.listener.Some? {
      var n := LastChunk(rule.listener.value);
      forall l: ExistingListener | l.name == n
        ensures LastNamed(er.listeners, n) == Some(l) <==> LastOfName(er.listeners, l)
      {
        LastNamedIs(er.listeners, l);
      }
    }
  }

  lemma {:induction false} PathTargetsAre(host: string, rules: seq<PathRule<string>>, t: Target)
    ensures t in PathTargets(host, rules) <==>
      t.host == host && exists r :: r in rules && r.paths.Some? && t.path in r.paths.value
  {
    if rules != [] {
      var n := |rules| - 1;
      PathTargetsAre(host, rules[..n], t);
      assert rules == rules[..n] + [rules[n]];
      if rules[n].paths.Some? {
        var own := WithHost(host, rules[n].paths.value);
        if t.host == host && t.path in rules[n].paths.value {
          var i :| 0 <= i < |own| && rules[n].paths.value[i] == t.path;
          assert own[i] == t;
        }
      }
    }
  }

  lemma {:induction false} MapTargetsAre(er: Existing, rule: Rule, t: Target)
    ensures t in MapTargetsOf(er, rule) <==> HostOf(er, rule) == Some(t.host) && HasMapPath(er, rule, t.path)
  {
    if rule.pathMap.Some? {
      var n := LastChunk(rule.pathMap.value);
      forall m: ExistingPathMap | m.name == n
        ensures LastNamed(er.pathMaps, n) == Some(m) <==> LastOfName(er.pathMaps, m)
      {
        LastNamedIs(er.pathMaps, m);
      }
      if HostOf(er, rule).Some? && MapOf(er, rule).Some? && MapOf(er, rule).value.body.pathRules.Some? {
        PathTargetsAre(HostOf(er, rule).value, MapOf(er, rule).value.body.pathRules.value, t);
      }
    }
  }

  /** A rule is prohibited exactly when a rule of its name serves a prohibited target. */
  lemma {:induction false} RuleProhibitedIff(er: Existing, rule: Rule)
    ensures RuleProhibited(er, rule) <==>
      exists r :: r in er.rules && r.name == rule.name && ServesProhibitedTarget(er, r)
  {
    forall r ensures Hit(er, TargetsOf(er, r)) <==> ServesProhibitedTarget(er, r) {
      HitIs(er, r);
    }
  }

  lemma {:induction false} HitIs(er: Existing, r: Rule)
    ensures Hit(er, TargetsOf(er, r)) <==> ServesProhibitedTarget(er, r)
  {
    forall host { HostIs(er, r, host); }
    forall t { MapTargetsAre(er, r, t); }
    if HostOf(er, r).Some? {
      var host := HostOf(er, r).value;
      var blank, rest := Target(host, ""), MapTargetsOf(er, r);
      assert TargetsOf(er, r) == [blank] + rest;
      forall path | HasMapPath(er, r, path) ensures Target(host, path) in rest {}
      assert blank in TargetsOf(er, r);
      forall t | t in rest ensures t in TargetsOf(er, r) && HasMapPath(er, r, t.path) && t == Target(host, t.path) {}
    }
  }

  ghost predicate LeadsTo(rule: Rule, mapName: string) {
    rule.pathMap.Some? && LastChunk(rule.pathMap.value) == mapName
  }

  /** Some rule serves a prohibited path through a path map of that name. */
  ghost predicate MapProhibited(er: Existing, m: ExistingPathMap) {
    exists r :: r in er.rules && LeadsTo(r, m.name) && Hit(er, MapTargetsOf(er, r))
  }

  // ----------------------------------------------------------------------- prohibited references

  predicate Names(ref: Option<string>, n: string) {
    ref.Some? && LastChunk(ref.value) == n
  }

  /** The rule itself refers to `n`. */
  predicate RuleUses(k: Kind, r: Rule, n: string) {
    match k
    case Pool => Names(r.pool, n)
    case Settings => Names(r.settings, n)
    case Redirect => Names(r.redirect, n)
  }

  predicate PathRuleUses(k: Kind, r: PathRule<string>, n: string) {
    match k
    case Pool => Names(r.pool, n)
    case Settings => Names(r.settings, n)
    case Redirect => Names(r.redirect, n)
  }

  predicate DefaultUses(k: Kind, p: Props, n: string) {
    match k
    case Pool => Names(p.pool, n)
    case Settings => Names(p.settings, n)
    case Redirect => Names(p.redirect, n)
  }

  /** Inside path maps, settings are looked at only beside a pool. */
  ghost predicate PathRuleRecords(k: Kind, r: PathRule<string>, n: string) {
    PathRuleUses(k, r, n) && (k == Settings ==> r.pool.Some?)
  }

  ghost predicate MapRecords(k: Kind, p: Props, n: string) {
    || (DefaultUses(k, p, n) && (k == Settings ==> p.pool.Some?))
    || (p.pathRules.Some? && exists r :: r in p.pathRules.value && PathRuleRecords(k, r, n))
  }

  /** The pool, settings or redirect called `n` is prohibited. */
  ghost predicate RefProhibited(er: Existing, k: Kind, n: string) {
    || (exists r :: r in er.rules && RuleProhibited(er, r) && RuleUses(k, r, n))
    || (exists m :: m in er.pathMaps && MapProhibited(er, m) && MapRecords(k, m.body, n))
  }

  /** A listener called `n` has a host named in a prohibited target. */
  ghost predicate HostNamed(er: Existing, n: string) {
    exists l, p ::
      l in er.listeners && l.name == n && p in er.prohibited && p.host != "" && l.body.hostName == Some(p.host)
  }

  ghost predicate ListenerProhibited(er: Existing, n: string) {
    || HostNamed(er, n)
    || (exists r :: r in er.rules && RuleProhibited(er, r) && Names(r.listener, n))
  }

  ghost predicate ProbeProhibited(er: Existing, n: string) {
    exists s :: s in er.settings && RefProhibited(er, Settings, s.name) && Names(s.body, n)
  }

  // ----------------------------------------------------------------------- what a rule reaches

  ghost predicate MapRefers(k: Kind, p: Props, n: string) {
    || DefaultUses(k, p, n)
    || (p.pathRules.Some? && exists r :: r in p.pathRules.value && PathRuleUses(k, r, n))
  }

  /** The rule, or a path map it leads to, refers to `n`. */
  ghost predicate Reaches(er: Existing, rule: Rule, k: Kind, n: string) {
    || RuleUses(k, rule, n)
    || (exists m :: m in er.pathMaps && LeadsTo(rule, m.name) && MapRefers(k, m.body, n))
  }

  ghost predicate ReachesProbe(er: Existing, rule: Rule, n: string) {
    exists s :: s in er.settings && Reaches(er, rule, Settings, s.name) && Names(s.body, n)
  }

  // ----------------------------------------------------------------------- when the classification is closed

  /** A prohibited path of slashes and stars that reads as the blank path and yet not as every path. */
  predicate Exotic(b: string) {
    EndsWithStar(b) && TrimRight(b) == "" && !CoversAll(b)
  }

  ghost predicate NoExotic(er: Existing) {
    forall p, i :: p in er.prohibited && 0 <= i < |p.paths| ==> !Exotic(p.paths[i])
  }

  ghost predicate RuleNamesDistinct(er: Existing) {
    forall a, b :: a in er.rules && b in er.rules && a.name == b.name ==> a == b
  }

  predicate HasPath(p: Props) {
    p.pathRules.Some? && exists r :: r in p.pathRules.value && r.paths.Some? && r.paths.value != []
  }

  /** Each path map that a rule leads to has at least one path. */
  ghost predicate MapsHavePaths(er: Existing) {
    forall r :: r in er.rules && MapOf(er, r).Some? ==> HasPath(MapOf(er, r).value.body)
  }

  /** In path maps, pools and settings come together. */
  ghost predicate Accompanied(p: Props) {
    && p.pool.Some? == p.settings.Some?
    && (p.pathRules.Some? ==> forall r :: r in p.pathRules.value ==> r.pool.Some? == r.settings.Some?)
  }

  ghost predicate SettingsAccompanyPools(er: Existing) {
    forall m :: m in er.pathMaps ==> Accompanied(m.body)
  }

  ghost predicate Regular(er: Existing) {
    NoExotic(er) && RuleNamesDistinct(er) && MapsHavePaths(er) && SettingsAccompanyPools(er)
  }

  // ----------------------------------------------------------------------- the blank path

  lemma {:induction false} TrimLower(b: string)
    ensures TrimRight(Lower(b)) == Lower(TrimRight(b))
  {
    if b != "" && SlashOrStar(b[|b| - 1]) {
      TrimLower(b[..|b| - 1]);
      assert Lower(b)[..|b| - 1] == Lower(b[..|b| - 1]);
    }
  }

  /** Which entries prohibit the blank path. */
  lemma {:induction false} BlankProhibited(b: string)
    ensures PathProhibits(b, "") <==> CoversAll(b) || (EndsWithStar(b) && TrimRight(b) == "")
  {
    TrimLower(b);
    assert Lower("") == "";
    assert TrimRight("") == "";
    assert TrimRight(b) == "" <==> Lower(TrimRight(b)) == "";
  }

  /** An exotic entry prohibits the blank path and misses others. */
  lemma {:induction false} ExoticMisses(b: string)
    requires Exotic(b)
    ensures PathProhibits(b, "") && !PathProhibits(b, "y")
  {
    BlankProhibited(b);
    TrimLower(b);
    assert Lower("") == "" && Lower("y") == "y";
    assert TrimRight("y") == "y";
    assert |b| >= 2;
    Misses(b, "y");
  }

  /** An entry that prohibits the blank path prohibits every path exactly when it is not exotic. */
  lemma {:induction false} BlankTakesAllIff(b: string)
    ensures (PathProhibits(b, "") ==> forall p :: PathProhibits(b, p)) <==> !Exotic(b)
  {
    BlankProhibited(b);
    if Exotic(b) { ExoticMisses(b); }
  }

  /** Without exotic entries a host whose blank path is prohibited is prohibited throughout. */
  lemma {:induction false} HostIsProhibited(er: Existing, host: string, path: string)
    requires NoExotic(er) && Prohibited(Target(host, ""), er.prohibited)
    ensures Prohibited(Target(host, path), er.prohibited)
  {
    var k :| 0 <= k < |er.prohibited| && ProhibitedBy(Target(host, ""), er.prohibited[k]);
    var p := er.prohibited[k];
    if p.paths != [] {
      var i :| 0 <= i < |p.paths| && PathProhibits(p.paths[i], "");
      BlankTakesAllIff(p.paths[i]);
      assert PathProhibits(p.paths[i], path);
    }
    assert ProhibitedBy(Target(host, path), p);
  }

  // ----------------------------------------------------------------------- closure

  lemma {:induction false} TargetsHaveHost(host: string, pathRules: seq<PathRule<string>>, t: Target)
    requires t in PathTargets(host, pathRules)
    ensures t.host == host
  {
    var n := |pathRules| - 1;
    if t in PathTargets(host, pathRules[..n]) {
      TargetsHaveHost(host, pathRules[..n], t);
    }
  }

  lemma {:induction false} PathsAreTargets(host: string, pathRules: seq<PathRule<string>>)
    requires exists r :: r in pathRules && r.paths.Some? && r.paths.value != []
    ensures PathTargets(host, pathRules) != []
  {
    var n := |pathRules| - 1;
    if !(pathRules[n].paths.Some? && pathRules[n].paths.value != []) {
      PathsAreTargets(host, pathRules[..n]);
    }
  }

  /** A rule with a prohibited target leads to a path map with a prohibited target. */
  lemma {:induction false} MapIsHit(er: Existing, rule: Rule)
    requires NoExotic(er) && MapsHavePaths(er) && rule in er.rules
    requires Hit(er, TargetsOf(er, rule)) && MapOf(er, rule).Some?
    ensures Hit(er, MapTargetsOf(er, rule))
  {
    var t :| t in TargetsOf(er, rule) && Prohibited(t, er.prohibited);
    var host := HostOf(er, rule).value;
    var pathRules := MapOf(er, rule).value.body.pathRules.value;
    PathsAreTargets(host, pathRules);
    if t !in MapTargetsOf(er, rule) {
      var u := PathTargets(host, pathRules)[0];
      TargetsHaveHost(host, pathRules, u);
      HostIsProhibited(er, host, u.path);
      assert u in MapTargetsOf(er, rule) && u == Target(host, u.path);
    }
  }

  /** Every path map a prohibited rule leads to is prohibited. */
  lemma {:induction false} MapIsProhibited(er: Existing, rule: Rule, m: ExistingPathMap)
    requires NoExotic(er) && MapsHavePaths(er) && RuleNamesDistinct(er)
    requires rule in er.rules && RuleProhibited(er, rule) && m in er.pathMaps && LeadsTo(rule, m.name)
    ensures MapProhibited(er, m)
  {
    assert Hit(er, TargetsOf(er, rule));
    assert MapOf(er, rule).Some?;
    MapIsHit(er, rule);
  }

  /** Without hypotheses: a prohibited path map is one that a prohibited rule leads to. */
  lemma {:induction false} ProhibitedMapIsLed(er: Existing, m: ExistingPathMap) returns (rule: Rule)
    requires MapProhibited(er, m)
    ensures rule in er.rules && RuleProhibited(er, rule) && LeadsTo(rule, m.name)
  {
    rule :| rule in er.rules && LeadsTo(rule, m.name) && Hit(er, MapTargetsOf(er, rule));
    var t :| t in MapTargetsOf(er, rule) && Prohibited(t, er.prohibited);
    assert t in TargetsOf(er, rule);
  }

  lemma {:induction false} RecordsAre(k: Kind, p: Props, n: string)
    requires Accompanied(p)
    ensures MapRecords(k, p, n) <==> MapRefers(k, p, n)
  {
    if p.pathRules.Some? {
      forall r | r in p.pathRules.value ensures PathRuleRecords(k, r, n) <==> PathRuleUses(k, r, n) {}
    }
  }

  /** The path maps classified as prohibited are those that a prohibited rule leads to. */
  lemma {:induction false} MapProhibitedIff(er: Existing, m: ExistingPathMap)
    requires Regular(er) && m in er.pathMaps
    ensures MapProhibited(er, m) <==> exists r :: r in er.rules && RuleProhibited(er, r) && LeadsTo(r, m.name)
  {
    if MapProhibited(er, m) {
      var r := ProhibitedMapIsLed(er, m);
    }
    if r :| r in er.rules && RuleProhibited(er, r) && LeadsTo(r, m.name) {
      MapIsProhibited(er, r, m);
    }
  }

  lemma {:induction false} ReachedIsProhibited(er: Existing, rule: Rule, k: Kind, n: string)
    requires Regular(er) && rule in er.rules && RuleProhibited(er, rule) && Reaches(er, rule, k, n)
    ensures RefProhibited(er, k, n)
  {
    if !RuleUses(k, rule, n) {
      var m :| m in er.pathMaps && LeadsTo(rule, m.name) && MapRefers(k, m.body, n);
      MapIsProhibited(er, rule, m);
      RecordsAre(k, m.body, n);
    }
  }

  lemma {:induction false} ProhibitedIsReached(er: Existing, k: Kind, n: string) returns (rule: Rule)
    requires Regular(er) && RefProhibited(er, k, n)
    ensures rule in er.rules && RuleProhibited(er, rule) && Reaches(er, rule, k, n)
  {
    if r :| r in er.rules && RuleProhibited(er, r) && RuleUses(k, r, n) {
      rule := r;
    } else {
      var m :| m in er.pathMaps && MapProhibited(er, m) && MapRecords(k, m.body, n);
      rule := ProhibitedMapIsLed(er, m);
      RecordsAre(k, m.body, n);
    }
  }

  /** The pools, settings and redirects classified as prohibited are those a prohibited rule reaches. */
  lemma {:induction false} RefProhibitedIff(er: Existing, k: Kind, n: string)
    requires Regular(er)
    ensures RefProhibited(er, k, n) <==> exists r :: r in er.rules && RuleProhibited(er, r) && Reaches(er, r, k, n)
  {
    if RefProhibited(er, k, n) {
      var r := ProhibitedIsReached(er, k, n);
    }
    if r :| r in er.rules && RuleProhibited(er, r) && Reaches(er, r, k, n) {
      ReachedIsProhibited(er, r, k, n);
    }
  }

  /** Whatever a prohibited rule, its path map or a path rule there refers to is prohibited, field by field. */
  lemma {:induction false} ReferencesAreProhibited(er: Existing, rule: Rule, m: ExistingPathMap, r: PathRule<string>)
    requires Regular(er) && rule in er.rules && RuleProhibited(er, rule)
    requires m in er.pathMaps && LeadsTo(rule, m.name) && m.body.pathRules.Some? && r in m.body.pathRules.value
    ensures forall id :: rule.pool == Some(id) || m.body.pool == Some(id) || r.pool == Some(id) ==>
      RefProhibited(er, Pool, LastChunk(id))
    ensures forall id :: rule.settings == Some(id) || m.body.settings == Some(id) || r.settings == Some(id) ==>
      RefProhibited(er, Settings, LastChunk(id))
    ensures forall id :: rule.redirect == Some(id) || m.body.redirect == Some(id) || r.redirect == Some(id) ==>
      RefProhibited(er, Redirect, LastChunk(id))
  {
    forall id, k
      ensures RuleUses(k, rule, LastChunk(id)) ==> RefProhibited(er, k, LastChunk(id))
      ensures DefaultUses(k, m.body, LastChunk(id)) ==> RefProhibited(er, k, LastChunk(id))
      ensures PathRuleUses(k, r, LastChunk(id)) ==> RefProhibited(er, k, LastChunk(id))
    {
      UsedIsProhibited(er, rule, m, r, k, LastChunk(id));
    }
    UsesAre(rule, m.body, r);
  }

  lemma UsedIsProhibited(er: Existing, rule: Rule, m: ExistingPathMap, r: PathRule<string>, k: Kind, n: string)
    requires Regular(er) && rule in er.rules && RuleProhibited(er, rule)
    requires m in er.pathMaps && LeadsTo(rule, m.name) && m.body.pathRules.Some? && r in m.body.pathRules.value
    ensures RuleUses(k, rule, n) || DefaultUses(k, m.body, n) || PathRuleUses(k, r, n) ==> RefProhibited(er, k, n)
  {
    if RuleUses(k, rule, n) || DefaultUses(k, m.body, n) || PathRuleUses(k, r, n) {
      assert Reaches(er, rule, k, n);
      ReachedIsProhibited(er, rule, k, n);
    }
  }

  /** Who uses what, field by field. */
  lemma UsesAre(rule: Rule, p: Props, r: PathRule<string>)
    ensures forall id :: (rule.pool == Some(id) ==> RuleUses(Pool, rule, LastChunk(id)))
                         && (p.pool == Some(id) ==> DefaultUses(Pool, p, LastChunk(id)))
                         && (r.pool == Some(id) ==> PathRuleUses(Pool, r, LastChunk(id)))
    ensures forall id :: (rule.settings == Some(id) ==> RuleUses(Settings, rule, LastChunk(id)))
                         && (p.settings == Some(id) ==> DefaultUses(Settings, p, LastChunk(id)))
                         && (r.settings == Some(id) ==> PathRuleUses(Settings, r, LastChunk(id)))
    ensures forall id :: (rule.redirect == Some(id) ==> RuleUses(Redirect, rule, LastChunk(id)))
                         && (p.redirect == Some(id) ==> DefaultUses(Redirect, p, LastChunk(id)))
                         && (r.redirect == Some(id) ==> PathRuleUses(Redirect, r, LastChunk(id)))
  {
  }

  /** The probes classified as prohibited are those of settings that a prohibited rule reaches. */
  lemma {:induction false} ProbeProhibitedIff(er: Existing, n: string)
    requires Regular(er)
    ensures ProbeProhibited(er, n) <==> exists r :: r in er.rules && RuleProhibited(er, r) && ReachesProbe(er, r, n)
  {
    if s :| s in er.settings && RefProhibited(er, Settings, s.name) && Names(s.body, n) {
      var r := ProhibitedIsReached(er, Settings, s.name);
      assert ReachesProbe(er, r, n);
    }
    if r :| r in er.rules && RuleProhibited(er, r) && ReachesProbe(er, r, n) {
      var s :| s in er.settings && Reaches(er, r, Settings, s.name) && Names(s.body, n);
      ReachedIsProhibited(er, r, Settings, s.name);
    }
  }

  // ----------------------------------------------------------------------- where the classification leaks

  /** Every path map that a prohibited rule leads to is prohibited. */
  ghost predicate MapsClosed(er: Existing) {
    forall r, m :: r in er.rules && m in er.pathMaps && RuleProhibited(er, r) && LeadsTo(r, m.name) ==>
      MapProhibited(er, m)
  }

  ghost predicate Named(er: Existing, host: string, b: string) {
    er.prohibited == [ProhibitedTarget(host, [b])] && RuleNamesDistinct(er) && MapsHavePaths(er)
  }

  /** One rule leading to one path map whose only path is `y`. */
  ghost function OneRule(host: string, b: string): Existing {
    Existing(
      [RoutingRule("r", Some("l"), PathBasedRouting, Some("m"), None, None, None, None)],
      [Resource("l", ListenerBody(Some(host), [], false, None, None))],
      [Resource("m", PathMapProps(None, None, None, None, Some([PathRule("p", Some(["y"]), None, None, None, None)])))],
      [],
      [ProhibitedTarget(host, [b])])
  }

  lemma {:induction false} OneRuleTargets(host: string, b: string, rule: Rule)
    requires rule in OneRule(host, b).rules
    ensures TargetsOf(OneRule(host, b), rule) == [Target(host, ""), Target(host, "y")]
    ensures MapTargetsOf(OneRule(host, b), rule) == [Target(host, "y")]
    ensures MapOf(OneRule(host, b), rule) == Some(OneRule(host, b).pathMaps[0])
    ensures LeadsTo(rule, "m")
  {
    SplitNoSlash("l");
    SplitNoSlash("m");
    var er := OneRule(host, b);
    assert LastNamed(er.listeners, "l") == Some(er.listeners[0]);
    assert LastNamed(er.pathMaps, "m") == Some(er.pathMaps[0]);
    var pathRules := er.pathMaps[0].body.pathRules.value;
    assert pathRules[..0] == [];
    assert PathTargets(host, pathRules[..0]) == [];
    assert PathTargets(host, pathRules) == WithHost(host, ["y"]);
  }

  /** With an exotic entry the one rule is prohibited and its path map is not. */
  lemma {:induction false} ExoticLeaks(host: string, b: string)
    requires Exotic(b)
    ensures Named(OneRule(host, b), host, b) && !MapsClosed(OneRule(host, b))
  {
    var er := OneRule(host, b);
    var r, m := er.rules[0], er.pathMaps[0];
    OneRuleTargets(host, b, r);
    ExoticMisses(b);
    var path := m.body.pathRules.value[0];
    assert path in m.body.pathRules.value && path.paths.Some? && path.paths.value != [];
    var p := er.prohibited[0];
    assert PathProhibits(p.paths[0], "");
    assert ProhibitedBy(Target(host, ""), p);
    assert Prohibited(Target(host, ""), er.prohibited);
    assert !ProhibitedBy(Target(host, "y"), p);
    assert Target(host, "") in TargetsOf(er, r);
    assert Hit(er, TargetsOf(er, r));
    assert !Hit(er, MapTargetsOf(er, r));
    assert RuleProhibited(er, r) && !MapProhibited(er, m);
  }

  /** With one prohibited path, the path maps are classified soundly in every gateway exactly when
      the path is not exotic. */
  lemma {:induction false} MapsClosedIff(host: string, b: string)
    ensures (forall er :: Named(er, host, b) ==> MapsClosed(er)) <==> !Exotic(b)
  {
    if Exotic(b) {
      ExoticLeaks(host, b);
    } else {
      forall er | Named(er, host, b) ensures MapsClosed(er) {
        forall r, m | r in er.rules && m in er.pathMaps && RuleProhibited(er, r) && LeadsTo(r, m.name)
          ensures MapProhibited(er, m)
        {
          MapIsProhibited(er, r, m);
        }
      }
    }
  }

  /** Two rules of one name: one for a prohibited host, one leading to a path map of another host. */
  ghost function TwoRules(): Existing {
    Existing(
      [RoutingRule("r", Some("l"), Basic, None, Some("b"), Some("s"), None, None),
       RoutingRule("r", Some("k"), PathBasedRouting, Some("m"), None, None, None, None)],
      [Resource("l", ListenerBody(Some("h"), [], false, None, None)),
       Resource("k", ListenerBody(Some("g"), [], false, None, None))],
      [Resource("m", PathMapProps(None, None, None, None, Some([PathRule("p", Some(["y"]), None, None, None, None)])))],
      [],
      [ProhibitedTarget("h", [])])
  }

  lemma {:induction false} TwoRulesTargets(er: Existing)
    requires er == TwoRules()
    ensures TargetsOf(er, er.rules[0]) == [Target("h", "")] && MapTargetsOf(er, er.rules[0]) == []
    ensures MapTargetsOf(er, er.rules[1]) == [Target("g", "y")] && LeadsTo(er.rules[1], "m")
  {
    SplitNoSlash("l");
    SplitNoSlash("k");
    SplitNoSlash("m");
    assert er.listeners[..1][0] == er.listeners[0];
    assert LastNamed(er.listeners, "l") == Some(er.listeners[0]);
    assert LastNamed(er.listeners, "k") == Some(er.listeners[1]);
    assert LastNamed(er.pathMaps, "m") == Some(er.pathMaps[0]);
    var pathRules := er.pathMaps[0].body.pathRules.value;
    assert pathRules[..0] == [];
    assert PathTargets("g", pathRules[..0]) == [];
    assert PathTargets("g", pathRules) == WithHost("g", ["y"]);
  }

  /** Distinct rule names are needed: the targets of rules that share a name are pooled, so a rule
      can be prohibited while its path map is not. */
  lemma {:induction false} SharedRuleNameLeaks(er: Existing)
    requires er == TwoRules()
    ensures NoExotic(er) && RuleProhibited(er, er.rules[1]) && LeadsTo(er.rules[1], er.pathMaps[0].name)
    ensures !MapProhibited(er, er.pathMaps[0])
  {
    TwoRulesTargets(er);
    assert Lower("h") == "h" && Lower("g") == "g";
    assert ProhibitedBy(Target("h", ""), er.prohibited[0]);
    assert !ProhibitedBy(Target("g", "y"), er.prohibited[0]);
    var r := er.rules[0];
    assert Target("h", "") in TargetsOf(er, r);
    assert Hit(er, TargetsOf(er, r));
    forall x | x in er.rules ensures !Hit(er, MapTargetsOf(er, x)) {
      assert x == er.rules[0] || x == er.rules[1];
    }
  }
}
