/**
 Where the emitted gateway sends a request, and that it is where the ingresses say: the meaning of the
 compiled rules and path maps against the meaning of the ingresses (pkg/appgw/requestroutingrules.go).
 */
module BuildTraffic {
  import opened Iteration
  import opened Resources
  import opened RoutingTypes
  import opened ListenerIds
  import opened IngressListeners
  import opened RequestedListeners
  import opened Backends
  import opened PathMaps
  import opened BuildSpec
  import opened BuildListeners
  import opened BuildEdges
  import opened BuildRoutes
  import opened BuildDefaults

  /** A request is redirected, or goes to a pool with certain settings. */
  datatype Goal = ToRedirect(redirect: Id) | ToBackend(pool: Option<Id>, settings: Option<Id>)

  function GoalOf(redirect: Option<Id>, pool: Option<Id>, settings: Option<Id>): Goal {
    if redirect.Some? then ToRedirect(redirect.value) else ToBackend(pool, settings)
  }

  // ---------------------------------------------------------------- the meaning of the gateway

  /** Path rule `a` is the first for the path. */
  ghost predicate FirstFor(rules: seq<PRule>, path: string, a: int) {
    && 0 <= a < |rules| && rules[a].paths.Some? && path in rules[a].paths.value
    && forall b :: 0 <= b < a ==> rules[b].paths.None? || path !in rules[b].paths.value
  }

  /** A path map sends the path by the first path rule for it, or else by its defaults. */
  ghost predicate MapSends(m: Props, path: string, goal: Goal) {
    var rules := RulesIn(m);
    || (exists a :: FirstFor(rules, path, a) && goal == GoalOf(rules[a].redirect, rules[a].pool, rules[a].settings))
    || ((forall a :: !FirstFor(rules, path, a)) && goal == GoalOf(m.redirect, m.pool, m.settings))
  }

  /** A basic rule sends everything to its own target, a path-based one by the path map it names. */
  ghost predicate RuleSends(b: Built, rule: Rule, path: string, goal: Goal) {
    match rule.ruleType
    case Basic => goal == GoalOf(rule.redirect, rule.pool, rule.settings)
    case PathBasedRouting =>
      exists j ::
        && 0 <= j < |b.pathMaps| && rule.pathMap == Some(b.pathMaps[j].name)
        && MapSends(b.pathMaps[j].props, path, goal)
  }

  /** Some rule bound to the listener sends the path there. */
  ghost predicate Sends(b: Built, listener: Id, path: string, goal: Goal) {
    exists k :: 0 <= k < |b.rules| && b.rules[k].listener == Some(listener) && RuleSends(b, b.rules[k], path, goal)
  }

  // ---------------------------------------------------------------- the meaning of the ingresses

  function PathText(ctx: Context, s: Spot): string
    requires IsSpot(ctx, s)
  {
    ctx.ingresses[s.i].rules[s.r].http.value[s.p].path
  }

  /** The path is written there, behind ingress `w`, and gets a route. */
  ghost predicate Written(ctx: Context, env: Env, id: ListenerId, w: int, path: string, s: Spot) {
    GetsRoute(ctx, env, id, s) && s.i > w && PathText(ctx, s) == path
  }

  ghost predicate FirstWritten(ctx: Context, env: Env, id: ListenerId, w: int, path: string, s: Spot) {
    && Written(ctx, env, id, w, path, s)
    && forall t :: Written(ctx, env, id, w, path, t) ==> !Before(t, s)
  }

  /** Where the ingresses want the path to go: where the first path so written leads, or else where the
      defaults do. */
  ghost predicate Wanted(ctx: Context, env: Env, id: ListenerId, w: int, path: string, goal: Goal) {
    || (exists s, pr ::
          && FirstWritten(ctx, env, id, w, path, s) && RouteFor(ctx, env.redirects, id, s, pr)
          && goal == GoalOf(pr.redirect, pr.pool, pr.settings))
    || ((forall s :: !Written(ctx, env, id, w, path, s))
        && exists m :: DefaultsAre(ctx, env, id, w, m) && goal == GoalOf(m.redirect, m.pool, m.settings))
  }

  // ---------------------------------------------------------------- from the gateway to the path map

  lemma FirstForOnce(rules: seq<PRule>, path: string, a: int, b: int)
    requires FirstFor(rules, path, a) && FirstFor(rules, path, b)
    ensures a == b
  {
  }

  /** A path map sends each path to one goal. */
  lemma MapSendsOnce(m: Props, path: string) returns (goal: Goal)
    ensures forall g :: MapSends(m, path, g) <==> g == goal
  {
    var rules := RulesIn(m);
    if a :| FirstFor(rules, path, a) {
      goal := GoalOf(rules[a].redirect, rules[a].pool, rules[a].settings);
      forall b | FirstFor(rules, path, b) ensures b == a { FirstForOnce(rules, path, a, b); }
    } else {
      goal := GoalOf(m.redirect, m.pool, m.settings);
    }
  }

  /** The one path map emitted for an identifier. */
  lemma EmittedMap(b: Built, id: ListenerId) returns (p: nat)
    requires RulesPass(b.maps, b.byId, b.ruleIds, b.rules, b.pathIds, b.pathMaps)
    requires id in b.maps && id in b.byId && RulesIn(b.maps[id]) != []
    ensures p < |b.pathMaps| && b.pathMaps[p].props == b.maps[id]
    ensures forall j :: 0 <= j < |b.pathMaps| ==> (b.pathMaps[j].name == PathMapName(id) <==> j == p)
  {
    assert id in b.pathIds;
    p :| 0 <= p < |b.pathIds| && b.pathIds[p] == id;
    forall j | 0 <= j < |b.pathMaps| ensures b.pathMaps[j].name == PathMapName(id) <==> j == p {
      assert b.pathMaps[j].name == PathMapName(b.pathIds[j]);
    }
  }

  /** The rule made for a path map sends as the map does. */
  lemma RuleForSends(b: Built, id: ListenerId, path: string, goal: Goal)
    requires RulesPass(b.maps, b.byId, b.ruleIds, b.rules, b.pathIds, b.pathMaps) && id in b.maps && id in b.byId
    ensures RuleSends(b, RuleFor(id, b.maps[id], b.byId[id]), path, goal) <==> MapSends(b.maps[id], path, goal)
  {
    var m := b.maps[id];
    if RulesIn(m) == [] {
      EmptyMapSends(m, path, goal);
    } else {
      var p := EmittedMap(b, id);
      PathBasedSends(b, RuleFor(id, m, b.byId[id]), p, path, goal);
    }
  }

  lemma EmptyMapSends(m: Props, path: string, goal: Goal)
    requires RulesIn(m) == []
    ensures MapSends(m, path, goal) <==> goal == GoalOf(m.redirect, m.pool, m.settings)
  {
    assert forall a :: !FirstFor(RulesIn(m), path, a);
  }

  lemma PathBasedSends(b: Built, rule: Rule, p: nat, path: string, goal: Goal)
    requires rule.ruleType.PathBasedRouting? && p < |b.pathMaps|
    requires forall j :: 0 <= j < |b.pathMaps| ==> (Some(b.pathMaps[j].name) == rule.pathMap <==> j == p)
    ensures RuleSends(b, rule, path, goal) <==> MapSends(b.pathMaps[p].props, path, goal)
  {
  }

  /** Without gaps, what is grouped under an identifier is its own listener. */
  lemma GroupedNames(ctx: Context, b: Built)
    requires Ready(ctx, b.configs) && ListenersPass(ctx, b.configs, b.ids, b.listeners, b.ports)
    requires b.byId == Group(ctx, PortsById(b.ports), b.listeners)
    requires PortIdsClear(ctx) && IpsClear(ctx) && NoGaps(b.ids)
    ensures forall id :: id in b.byId ==> b.byId[id].name == ListenerName(id)
    ensures forall k :: 0 <= k < |b.ids| ==> b.ids[k] in b.byId && b.listeners[k].name == ListenerName(b.ids[k])
  {
    forall id | id in b.byId ensures b.byId[id].name == ListenerName(id) { GroupOf(ctx, b, id); }
    forall k | 0 <= k < |b.ids| ensures b.ids[k] in b.byId && b.listeners[k].name == ListenerName(b.ids[k]) {
      assert b.ids[k] in b.ids;
      GroupOf(ctx, b, b.ids[k]);
    }
  }

  /** The rules bound to a listener are the one made from its own path map. */
  lemma OnlyRule(b: Built, id: ListenerId) returns (j: nat)
    requires RulesPass(b.maps, b.byId, b.ruleIds, b.rules, b.pathIds, b.pathMaps)
    requires forall x :: x in b.byId ==> b.byId[x].name == ListenerName(x)
    requires id in b.maps && id in b.byId
    ensures j < |b.rules| && b.rules[j] == RuleFor(id, b.maps[id], b.byId[id])
    ensures forall i :: 0 <= i < |b.rules| ==> (b.rules[i].listener == Some(ListenerName(id)) <==> i == j)
  {
    assert id in b.ruleIds;
    j :| 0 <= j < |b.ruleIds| && b.ruleIds[j] == id;
    forall i | 0 <= i < |b.rules| ensures b.rules[i].listener == Some(ListenerName(id)) <==> i == j {
      RuleListener(b, i);
    }
  }

  lemma RuleListener(b: Built, i: nat)
    requires RulesPass(b.maps, b.byId, b.ruleIds, b.rules, b.pathIds, b.pathMaps) && i < |b.rules|
    requires forall x :: x in b.byId ==> b.byId[x].name == ListenerName(x)
    ensures b.rules[i].listener == Some(ListenerName(b.ruleIds[i]))
  {
    assert b.ruleIds[i] in b.ruleIds;
  }

  lemma RuleSendsAsMap(b: Built, id: ListenerId, path: string)
    requires RulesPass(b.maps, b.byId, b.ruleIds, b.rules, b.pathIds, b.pathMaps)
    requires forall x :: x in b.byId ==> b.byId[x].name == ListenerName(x)
    requires id in b.maps && id in b.byId
    ensures forall goal :: Sends(b, ListenerName(id), path, goal) <==> MapSends(b.maps[id], path, goal)
  {
    var j := OnlyRule(b, id);
    forall goal ensures Sends(b, ListenerName(id), path, goal) <==> MapSends(b.maps[id], path, goal) {
      RuleForSends(b, id, path, goal);
    }
  }

  /** The gateway sends a listener's requests as the listener's path map does. */
  lemma SendsAsMap(ctx: Context, b: Built, k: nat, path: string)
    requires IsBuild(ctx, b) && PortIdsClear(ctx) && IpsClear(ctx) && NoGaps(b.ids) && k < |b.listeners|
    ensures b.ids[k] in b.maps
    ensures forall goal :: Sends(b, b.listeners[k].name, path, goal) <==> MapSends(b.maps[b.ids[k]], path, goal)
  {
    MapsCoverConfigs(ctx, EnvOf(b), b.maps, b.ids[k]);
    GroupedNames(ctx, b);
    RuleSendsAsMap(b, b.ids[k], path);
  }

  // ---------------------------------------------------------------- from the path map to the ingresses

  lemma RouteIsFor(ctx: Context, env: Env, id: ListenerId, rules: seq<PRule>, w: int, spots: seq<Spot>, a: nat,
                   path: string)
    requires RoutesAre(ctx, env, id, rules, w, spots) && a < |rules|
    ensures rules[a].paths.Some? && (path in rules[a].paths.value <==> Written(ctx, env, id, w, path, spots[a]))
  {
    assert spots[a] in spots;
  }

  lemma FirstIsWritten(ctx: Context, env: Env, id: ListenerId, rules: seq<PRule>, w: int, spots: seq<Spot>,
                       path: string, a: nat)
    requires RoutesAre(ctx, env, id, rules, w, spots) && FirstFor(rules, path, a)
    ensures FirstWritten(ctx, env, id, w, path, spots[a])
  {
    RouteIsFor(ctx, env, id, rules, w, spots, a, path);
    forall t | Written(ctx, env, id, w, path, t) ensures !Before(t, spots[a]) {
      assert t in spots;
      var c :| 0 <= c < |spots| && spots[c] == t;
      RouteIsFor(ctx, env, id, rules, w, spots, c, path);
      NotBeforeFirst(spots, a, c);
    }
  }

  lemma NotBeforeFirst(spots: seq<Spot>, a: nat, c: nat)
    requires a <= c < |spots| && forall p, q :: 0 <= p < q < |spots| ==> Before(spots[p], spots[q])
    ensures !Before(spots[c], spots[a])
  {
  }

  lemma WrittenHasFirst(ctx: Context, env: Env, id: ListenerId, rules: seq<PRule>, w: int, spots: seq<Spot>,
                        path: string, s: Spot)
    returns (a: nat)
    requires RoutesAre(ctx, env, id, rules, w, spots) && Written(ctx, env, id, w, path, s)
    ensures FirstFor(rules, path, a)
  {
    assert s in spots;
    var c :| 0 <= c < |spots| && spots[c] == s;
    RouteIsFor(ctx, env, id, rules, w, spots, c, path);
    a := FirstOf(rules, path, c);
  }

  lemma {:induction false} FirstOf(rules: seq<PRule>, path: string, c: nat) returns (a: nat)
    requires c < |rules| && rules[c].paths.Some? && path in rules[c].paths.value
    ensures FirstFor(rules, path, a)
  {
    if d: nat :| d < c && rules[d].paths.Some? && path in rules[d].paths.value {
      a := FirstOf(rules, path, d);
    } else {
      a := c;
    }
  }

  lemma OverwrittenOnce(ctx: Context, env: Env, id: ListenerId, v: int, w: int)
    requires OverwrittenLast(ctx, env.pairs, id, v) && OverwrittenLast(ctx, env.pairs, id, w)
    ensures v == w
  {
  }

  lemma MapIsWanted(ctx: Context, env: Env, id: ListenerId, m: Props, w: int, spots: seq<Spot>, path: string,
                    goal: Goal)
    requires RoutesAre(ctx, env, id, RulesIn(m), w, spots) && DefaultsAre(ctx, env, id, w, m) && MapSends(m, path, goal)
    ensures Wanted(ctx, env, id, w, path, goal)
  {
    var rules := RulesIn(m);
    if a :| FirstFor(rules, path, a) && goal == GoalOf(rules[a].redirect, rules[a].pool, rules[a].settings) {
      FirstIsWritten(ctx, env, id, rules, w, spots, path, a);
      assert RouteFor(ctx, env.redirects, id, spots[a], rules[a]);
    } else {
      forall s ensures !Written(ctx, env, id, w, path, s) {
        if Written(ctx, env, id, w, path, s) {
          var a := WrittenHasFirst(ctx, env, id, rules, w, spots, path, s);
        }
      }
    }
  }

  /** The gateway sends every path on every listener to exactly one goal, and it is where the ingresses want
      it to go. */
  lemma TrafficIsWanted(ctx: Context, b: Built, k: nat, path: string) returns (w: int, goal: Goal)
    requires IsBuild(ctx, b) && PortIdsClear(ctx) && IpsClear(ctx) && GaplessHosts(ctx) && k < |b.listeners|
    ensures forall g :: Sends(b, b.listeners[k].name, path, g) <==> g == goal
    ensures OverwrittenLast(ctx, b.pairs, b.ids[k], w) && Wanted(ctx, EnvOf(b), b.ids[k], w, path, goal)
  {
    GaplessConfigsIff(ctx);
    NoGapsFromConfigs(ctx, b.configs, b.ids);
    SendsAsMap(ctx, b, k, path);
    var id := b.ids[k];
    goal := MapSendsOnce(b.maps[id], path);
    var spots, v;
    w, spots := MapRoutes(ctx, EnvOf(b), b.maps, id);
    v := MapDefaults(ctx, EnvOf(b), b.maps, id);
    OverwrittenOnce(ctx, EnvOf(b), id, v, w);
    MapIsWanted(ctx, EnvOf(b), id, b.maps[id], w, spots, path, goal);
  }
}
