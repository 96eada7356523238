# A verified model of the Application Gateway ingress controller

The controller compiles Kubernetes ingresses into one Application Gateway configuration and, on a
shared gateway, merges the result into what is already there. This project models four of its
parts in Dafny and proves what they promise:

* **The routing compiler** (`RoutingTypes`, `ListenerIds`, `IngressListeners`, `Backends`,
  `PathMaps`, `PathMapsFlat`, `BuildSpec`, `BuildListeners`, `BuildReferences`, `BuildValidation`,
  `BuildOrder`, `BuildEdges`, `BuildDangling`, `RequestedListeners`, `BuildRoutes`, `BuildDefaults`,
  `BuildTraffic`, `BuildResources`, `BuilderPasses`, `BuilderRules`, `Builder`).
  `BuildSpec.IsBuild` says what a build may produce in any order in which Go visits its maps;
  `Builder.ConfigBuilder` runs the passes with their memo fields and with path maps as mutable objects,
  and is proved to produce only such builds. What a build means is stated without its functions:
  `RequestedListeners`, `BuildRoutes` and `BuildDefaults` read the ingresses' own fields, `BuildTraffic`
  reads the emitted rules and path maps, and `TrafficIsWanted` says that the two agree. The theorems are about
  every `IsBuild` result, and
  `Builder.RunBuild` shows that there is one whenever existing ports are keyed by their number, every
  configured listener finds a frontend IP of its kind (`IpsReady`) and no backend has several port pairs.
* **The brownfield merge** (`RuleMerging`, `RuleMergingList`, `RuleMergingImpl`, `PathMapMerging`,
  `ListenerMerging`, `Strings`, `Targets`, `Prohibition`, `Pruning`, `Classification`,
  `ClassificationImpl`, `Retained`, `SharedRouting`). Rules that share a listener are merged by editing a
  shared list of path maps through pointers; existing resources are classified as prohibited by following
  references; ingress rules are pruned; `SharedRouting` composes them as the build does.
* **The secret tracker** (`Secrets`, `SecretsImpl`): a state machine over ingress and secret events.
* **The deployment cache** (`JsonTree`, `DeployCache`): key deletion on JSON trees, and when a
  deployment may be skipped over whole runs.

`Resources`, `Iteration` and `Sorting` hold what they share. A Go panic (nil dereference) is a result of `None`,
`false`, `Crashes` or `Panics`. Names generated by hashing are constructors of a datatype in the compiler, which makes
them injective, and a rank stands for their order as strings. Looping over a Go map is `Iteration.VisitOrder`: any order, each key once.

Where the code does less than its comments say, the model follows the code:

* two path-based rules of one listener that share a path map lose it (`RuleMerging.SharedMapIsLost`);
* a blank host name between two others, or a private listener visited before a public one on the
  same port, changes what a build emits (`BuildEdges`);
* an ingress without rules names a pool that may not exist; `BuildDangling.RefsResolveExactly` says when that leaves
  a dangling reference;
* a prohibited path such as `/x*` prohibits `/x/*` but not what lies below it (`Prohibition.ProhibitionHasGap`);
* prohibited paths made of slashes and stars only, other than `*` and `/*`, prohibit a rule without its path map
  (`Classification.ExoticLeaks`);
* a TLS host that a later ingress serves without ssl-redirect loses the redirect of the ingress that asked for it
  (`BuildResources.SslRedirectIff`, `SslRedirectIsLost`);
* two rules for one listener can leave the default pool of one with the default settings of the other
  (`BuildDefaults.DefaultsCanMix`), and a path map with both a default redirect and a default pool
  (`BuildDefaults.DefaultsClashIff`);
* path rules are named by position and pruning moves positions, so a managed path rule can replace a prohibited one of
  the same name (`PathMapMerging.PathRuleIsReplaced`), and then the prohibited rule itself may go
  (`SharedRouting.ReplacedPathFreesRule`);
* two path-based rules of one listener cannot be merged beside a path map without an ID
  (`RuleMergingList.NilIdCrashes`);
* of two multi-host listeners on one port and address only one is kept (`ListenerMerging.MultiHostListenerIsLost`);
* a malformed secret that is repaired after its ingress was added is not converted by the repair itself
  (`Secrets.RepairedSecretIsMissed`);
* a deletion delivered as a tombstone crashes the handler, which reads the namespace before it knows whether it has an
  object (`Secrets.CrashIff`);
* resetting the cache after a failed deployment changes only a copy (`DeployCache.FailureDoesNotReset`).

## Model

| member | source | states |
|---|---|---|
| `RuleMerging.MergeIsExact` | pkg/brownfield/routing_rules.go:59-131 | When path-based rules point at pairwise distinct existing maps, merging does not crash and leaves one rule per listener, the first path-based one if there is one; its map is still there and holds the union of the path rules of all that listener's path-based rules, the last supplier of a name winning; its default pool, settings, redirect and rewrite are those of the deciding basic rule, or its own; exactly the absorbed maps are gone, and maps no rule points at are untouched |
| `RuleMerging.MergeKeys` | pkg/brownfield/routing_rules.go:100-131 | Whenever merging does not crash, shared maps or not, one rule stays per listener and the deleted maps are exactly those of absorbed rules |
| `RuleMerging.MergeSurvivesIff` | pkg/brownfield/routing_rules.go:119-127 | The merge does not crash and every kept path-based rule still has its map, if and only if no other path-based rule points at the map of an absorbed rule |
| `RuleMerging.SharedMapIsLost` | pkg/brownfield/routing_rules.go:119-127 | Two rules of one listener with one path map: the map is deleted and the rule that stays points at nothing |
| `RuleMergingImpl.MergePathRules` | pkg/brownfield/pathmaps.go:109-121 | One path rule per name, and by name they are what laying the buckets over one another gives, the later winning |
| `RuleMergingImpl.LookupPathMap` | pkg/brownfield/pathmaps.go:124-132 | The index of the first map with that ID, or -1 when all maps have other IDs; it crashes if and only if a map without an ID comes up before a match |
| `RuleMergingImpl.DeletePathMap` | pkg/brownfield/pathmaps.go:135-151 | On any list: it crashes if and only if some map has no ID; otherwise the last map with that ID is overwritten by the last of the list and the list cut, or nothing changes when no map has it |
| `RuleMergingImpl.MergeRoutingRules` | pkg/brownfield/routing_rules.go:100-131 | On any list of path maps, IDs repeated or missing included: the in-place merge of two rules keeps the rule, and leaves the list, that the merge on lists gives, and crashes exactly when that one does |
| `RuleMergingImpl.MergeRules` | pkg/brownfield/routing_rules.go:59-77 | On any list of path maps, the loops over buckets, editing the gateway in place and ending in map order, return one rule per listener and leave the list that the merge on lists gives, or crash exactly when that one does; under the conditions of MergeIsExact the result is exact |
| `RuleMergingList.MergeRefines` | pkg/brownfield/routing_rules.go:59-131 | Where every path map has an ID of its own, looking maps up by position and deleting by overwriting with the last amounts to the merge on a map from IDs, crash for crash |
| `RuleMergingList.SwapDeleteMeans` | pkg/brownfield/pathmaps.go:145-148 | Overwriting with the last element and truncating removes exactly the ID deleted from what the list means, whatever its position |
| `RuleMergingList.NilIdCrashes` | pkg/brownfield/pathmaps.go:135-143 | Beside any path map without an ID, merging two path-based rules crashes, whatever they point at |
| `Strings.LastChunkIff` | pkg/utils/utils.go:31-34 | The last chunk of an ID is what follows its last slash, or all of it when there is none |
| `PathMapMerging.MergePathMaps` | pkg/brownfield/pathmaps.go:58-76 | One map per name, the first one; through its shared pointer it ends with its own defaults and the union by name of the path rules of all maps of that name, later buckets winning, one rule per name; maps alone in their name are unchanged; it crashes if and only if a map that shares its name has no list of path rules |
| `PathMapMerging.RuleKeptIff` | pkg/brownfield/pathmaps.go:109-121 | A path rule is in the union unchanged if and only if the last map of its map's name to have a rule of that name has an equal one |
| `PathMapMerging.PathRuleIsReplaced` | pkg/brownfield/pathmaps.go:109-121 | Two maps of one name with one path rule each, of one name: of the first rule nothing is left |
| `ListenerMerging.MergeListeners` | pkg/brownfield/listeners.go:44-70 | A listener is kept exactly when it stands before all listeners with its host name, protocol, port and address, absent and blank being the same |
| `ListenerMerging.AllKeptIff` | pkg/brownfield/listeners.go:48-62 | No listener is lost if and only if listeners that differ differ in one of the four |
| `ListenerMerging.MultiHostListenerIsLost` | pkg/brownfield/listeners.go:48-59 | Two listeners that differ only in name and multi-host field: the second is lost |
| `Targets.Contains` | pkg/brownfield/targets.go:77-107 | The loop computes the relation Covers and never indexes past the other path's chunks |
| `Targets.CoversIff` | pkg/brownfield/targets.go:77-107 | For any two paths, without splitting: the blank path, * and /* cover everything; a path not ending in a star covers what equals it ignoring case; one that does covers what equals it up to trailing slashes and stars, and what is at least as long and agrees with it up to a star between slashes |
| `Targets.WildcardCovers` | pkg/brownfield/targets.go:77-107 | For non-empty q without a star chunk, q followed by slash and star covers o if and only if o and q agree after trimming slashes and stars, or o is q, or o starts with q and a slash, ignoring case |
| `Targets.CoversIsChunkPrefix` | pkg/brownfield/targets.go:95-106 | Between wildcard paths of non-empty star-free chunks, covering is being a prefix chunk by chunk, ignoring case; likewise for the plain path below |
| `Targets.CoversIsPartialOrder` | pkg/brownfield/targets.go:77-107 | On such paths covering is reflexive and transitive, and mutual exactly for paths equal up to case |
| `Prohibition.IsBlacklisted` | pkg/brownfield/targets.go:30-51 | True if and only if some entry has a blank or equal host, ignoring case, and a path that prohibits this one |
| `Prohibition.ProhibitedIff` | pkg/brownfield/targets.go:30-71 | A target is prohibited if and only if some prohibited target has a blank host or the same one ignoring case, and no paths or one that is blank, /*, the same ignoring case, or covers it |
| `Prohibition.EntriesSay` | pkg/brownfield/targets.go:54-71 | The list built from the prohibited targets, lower-cased and with a blank path where none is given, prohibits exactly what they say |
| `Prohibition.GetTargetBlacklist` | pkg/brownfield/targets.go:54-71 | The loops build that list; it is empty only when there are no prohibited targets |
| `Prohibition.DownwardClosedIff` | pkg/brownfield/targets.go:30-51 | An entry that prohibits a wildcard path prohibits everything that path covers, if and only if the entry is not irregular: exact, blank, star, a wildcard of non-empty star-free chunks, or one that meets no such wildcard |
| `Prohibition.ProhibitionIsDownwardClosed` | pkg/brownfield/targets.go:30-51 | With no irregular entry in the list, a host whose wildcard path is prohibited has every path below it prohibited |
| `Prohibition.ProhibitionHasGap` | pkg/brownfield/targets.go:77-107 | The entry /x* prohibits the wildcard below /x and not /x/y |
| `Pruning.PruneIngressRules` | pkg/brownfield/ingress.go:15-65 | The loops keep, in order, the paths that are not prohibited, drop rules left empty or without an HTTP section, and change nothing when nothing is prohibited |
| `Pruning.PrunedAsks` | pkg/brownfield/ingress.go:29-63 | A host and path is asked for after pruning if and only if it was before and is not prohibited |
| `Pruning.PrunedServes` | pkg/brownfield/ingress.go:29-63 | The paths left, each with its host and backend, are the ones that are not prohibited, in the order they had |
| `Pruning.PruneTwice` | pkg/brownfield/ingress.go:15-65 | Pruning with some targets and then with others is pruning once with both lists, also when one is empty |
| `Pruning.PruneIdempotent` | pkg/brownfield/ingress.go:15-65 | Pruning again changes nothing |
| `Pruning.PruningMovesUp` | pkg/brownfield/ingress.go:29-63 | With the first of two paths prohibited the second becomes the first, and its path rule takes that position's name |
| `Classification.BlankTakesAllIff` | pkg/brownfield/targets.go:30-51 | An entry prohibiting the blank path prohibits every path, if and only if it is not a star-ended string of slashes and stars other than star and slash-star |
| `Classification.RuleProhibitedIff` | pkg/brownfield/routing_rules.go:167-204 | A rule is prohibited if and only if, for some rule of its name, the host of the last listener so named is prohibited with the blank path or with a path in a path rule of the last path map so named |
| `Classification.MapProhibitedIff` | pkg/brownfield/pathmaps.go:22-55 | A path map is classified as prohibited if and only if a prohibited rule leads to it |
| `Classification.RefProhibitedIff` | pkg/brownfield/pools.go:91-120 | A pool, settings or redirect is classified as prohibited if and only if a prohibited rule refers to it in its own pool, settings or redirect, or its path map or a path rule there does |
| `Classification.ReferencesAreProhibited` | pkg/brownfield/redirects.go:91-118 | Field by field: the pool, settings and redirect of a prohibited rule, of its path map and of each path rule there are all prohibited |
| `Classification.ProbeProhibitedIff` | pkg/brownfield/health_probes.go:88-98 | A probe is classified as prohibited if and only if settings that a prohibited rule reaches refer to it |
| `Classification.TargetsCrashIff` | pkg/brownfield/routing_rules.go:206-211 | Classification crashes exactly when some rule with a known listener leads to a path map without a list of path rules |
| `Classification.MapsClosedIff` | pkg/brownfield/pathmaps.go:33-43 | With one prohibited path, the path maps of prohibited rules are prohibited in every gateway, if and only if that path is not exotic |
| `Classification.ExoticLeaks` | pkg/brownfield/routing_rules.go:180-184 | With an exotic path there is a gateway whose only rule is prohibited and its path map is not |
| `Classification.SharedRuleNameLeaks` | pkg/brownfield/routing_rules.go:34-44 | Why rule names must be distinct: targets are pooled by rule name, so of two rules with one name the second is prohibited while its path map is not |
| `ClassificationImpl.GetRuleToTargets` | pkg/brownfield/routing_rules.go:167-204 | For every name, the targets collected are those of the rules, or path maps, of that name, in rule order; it crashes exactly as TargetsCrashIff says |
| `ClassificationImpl.GetBlacklistedRoutingRules` | pkg/brownfield/routing_rules.go:22-56 | Splits the rules, in order, into those a rule of whose name serves a prohibited target, and the others |
| `ClassificationImpl.GetBlacklistedPathMaps` | pkg/brownfield/pathmaps.go:22-55 | Splits the path maps, in order, into those through which a rule serves a prohibited path, and the others |
| `ClassificationImpl.GetBlacklistedNames` | pkg/brownfield/http_settings.go:89-118 | The sets of prohibited pool, settings and redirect names hold exactly the prohibited references; for settings it crashes exactly when a prohibited path map has a pool without settings |
| `ClassificationImpl.GetBlacklisted` | pkg/brownfield/pools.go:21-35 | Splits the resources, in order and with repetitions, into those whose name is prohibited and the others |
| `ClassificationImpl.GetBlacklistedListeners` | pkg/brownfield/listeners.go:124-146 | A listener name is prohibited if and only if its host is named in a prohibited target or a prohibited rule refers to it |
| `ClassificationImpl.GetBlacklistedProbes` | pkg/brownfield/health_probes.go:88-98 | The set holds exactly the names of probes of prohibited settings |
| `ClassificationImpl.MergeByName` | pkg/brownfield/pools.go:38-50 | One resource per name, the last of all buckets, and every name is kept |
| `ClassificationImpl.Retain` | pkg/brownfield/redirects.go:58-70 | Classification and merge together never crash on a regular gateway and keep one resource per name: ours, the last of a name; and of the existing ones exactly those that a prohibited rule reaches and that we have none of the same name as |
| `ClassificationImpl.RetainProbes` | pkg/brownfield/health_probes.go:38-50 | The same for the probes of settings that a prohibited rule reaches |
| `Retained.RetainPathMaps` | pkg/brownfield/pathmaps.go:58-76 | Classification and in-place merge together: for every existing path map that a prohibited rule leads to, the first existing map of its name is in the result with its own defaults and the union by name of the path rules of all maps of that name, existing and managed; each of its path rules keeps its name, and is unchanged if and only if the last map of that name to have a rule of that name has an equal one; one map per name; no other existing map stays; it crashes if and only if two maps that are kept or managed share a name and one has no list of path rules |
| `Retained.RetainListeners` | pkg/brownfield/listeners.go:44-70 | No listener of ours displaces a prohibited one: each is kept, or another prohibited one with its host, protocol, port and address is; all are kept if and only if no two prohibited ones agree in the four; no other existing listener stays |
| `SharedRouting.RequestRoutingRules` | pkg/appgw/requestroutingrules.go:24-62 | The whole pass on a shared gateway: the path maps are those RetainPathMaps gives, the rules are classified on them and merged through them; when maps have IDs and rules maps of their own, a listener with prohibited path-based rules keeps the first of them, its map holds the path rule names of all of them, and each one is itself the rule kept if and only if it is that first one; it crashes if and only if one of the three steps does |
| `SharedRouting.StillProhibitedIff` | pkg/appgw/requestroutingrules.go:40-52 | A prohibited rule is still prohibited after the path maps are merged, if and only if its host is prohibited throughout or a path rule that survives the merge in its map serves a prohibited path |
| `SharedRouting.ReplacedPathFreesRule` | pkg/appgw/requestroutingrules.go:40-55 | A prohibited path rule replaced by a managed one of its name that serves no prohibited path: the rule that led to it is no longer among those kept |
| `SharedRouting.ProhibitedRuleStands` | pkg/appgw/requestroutingrules.go:46-55 | No managed rule displaces a prohibited path-based one: the rule that stays on its listener is the first prohibited path-based rule, with the names of its path rules |
| `ListenerIds.SetHostNames` | pkg/appgw/internaltypes.go:219-229 | Overwrites as many names as are given, at most five, leaves those beyond as they were, and sets the single host name to the first non-blank one given; on a blank identifier that is the five names padded with blanks |
| `ListenerIds.GetHostNames` | pkg/appgw/internaltypes.go:231-241 | Returns the non-blank names in order |
| `ListenerIds.HostsRecoveredIff` | pkg/appgw/internaltypes.go:219-241 | An identifier is recovered from its non-blank names if and only if no blank precedes a non-blank name |
| `IngressListeners.HostToSecretIsLastCovering` | pkg/appgw/certificates.go:97-130 | A host maps to the last usable TLS entry that covers it, an entry without hosts covering the blank host, and to none only if no usable entry covers it |
| `IngressListeners.ConfigsAre` | pkg/appgw/frontend_listeners.go:109-141 | The configured listeners are those that processIngressRule gives for some HTTP rule, or the default listener alone when there is none; port, secret and redirect fit the protocol |
| `RequestedListeners.ServesIff` | pkg/appgw/ingress_rules.go:33-70 | A rule asks for an HTTPS listener if and only if a usable TLS entry covers its host or, failing that, the blank host, and for an HTTP listener if and only if there is no such entry or the ingress has ssl-redirect; the listener has the rule's host and the annotation's, at most five, and the IP kind of annotation and environment |
| `RequestedListeners.ConfiguredIff` | pkg/appgw/frontend_listeners.go:109-141 | A listener is configured if and only if some rule asks for it, or it is the public HTTP listener without hosts and no rule asks for any |
| `RequestedListeners.ConfigIsLastAsked` | pkg/appgw/frontend_listeners.go:109-141 | Its protocol, secret, redirect and firewall policy are those of the last rule to ask for it: the secret that of the last TLS entry for the host or else for the blank host, the redirect only with ssl-redirect |
| `RequestedListeners.DefaultConfigIs` | pkg/appgw/frontend_listeners.go:128-139 | The default listener serves HTTP with the first firewall policy of any ingress |
| `Backends.NewBackendIds` | pkg/appgw/ingress_rules.go:74-116 | The set holds exactly one identifier for each ingress' default backend and each path of its HTTP rules |
| `Backends.ResolvePorts` | pkg/appgw/backendhttpsettings.go:79-139 | The pairs are those of the first TCP port whose number, name or target is written so: the port with itself when no target is written, with the target when that is a number, and otherwise with every endpoint port of the service port's name; the number asked for when there is no such service |
| `Backends.GetBackends` | pkg/appgw/backendhttpsettings.go:69-199 | Each recorded backend has its only pair; either all backends are recorded or one that does not resolve stopped the loop; failure means some backend has several pairs |
| `Backends.GetPools` | pkg/appgw/backendaddresspools.go:31-98 | The pools are the default one and, for each backend with endpoints on its port, its own |
| `Backends.GetSettings` | pkg/appgw/backendhttpsettings.go:159-199 | One settings object per name, with the default ones and those of every recorded backend |
| `Backends.GetProbes` | pkg/appgw/health_probes.go:43-76 | The probes are the default ones and the one each backend refers to: its own when it stands at a path and its service exists, else a default |
| `PathMaps.MergeSeqIsFlat` | pkg/appgw/requestroutingrules.go:348-371 | Merging contributions one by one concatenates their path rules, keeps the last redirect, and keeps the last non-default pool and settings since it; without a redirect both are set |
| `PathMaps.MapAfterIsFlat` | pkg/appgw/requestroutingrules.go:150-184 | After any prefix of ingresses and rules a listener's map is the merge, onto the last overwriting ingress' map or a fresh one, of the contributions since |
| `PathMaps.MapsCoverConfigs` | pkg/appgw/requestroutingrules.go:150-212 | Every configured listener has a path map, and the only other one is the default listener's |
| `PathMapsFlat.PathRulesAreFlat` | pkg/appgw/requestroutingrules.go:150-184 | When every ingress has rules, a requested listener's path rules are the concatenation, in ingress and rule order, of getPathRules for exactly the rules that serve it |
| `PathMapsFlat.PathRulesCoverPaths` | pkg/appgw/requestroutingrules.go:284-346 | When a rule's backends resolve, or it redirects, exactly its paths other than the blank one, / and /* get a path rule, in order; where each leads is stated by BuildRoutes.PathRulesAreWritten |
| `PathMapsFlat.RedirectIsNeverLost` | pkg/appgw/requestroutingrules.go:348-360 | When every ingress has rules, a default redirect brought by any serving rule is there in the end |
| `BuildRoutes.PathRulesAreWritten` | pkg/appgw/requestroutingrules.go:284-346 | Every path map of a build: its path rules are, in the order of ingresses, rules and paths, exactly those of the non-default paths of rules that ask for the listener and are redirected or have a port pair; each is named for its position, carries that path and policy, and leads to the redirect to the HTTPS listener of the same hosts or to the pool and settings of the service and port written at that path |
| `BuildDefaults.MapDefaults` | pkg/appgw/requestroutingrules.go:214-282 | The defaults of every path map: the redirect if some rule that asks for the listener redirects; pool and settings each from the last rule to bring one, which is that of its last default path, else of the ingress' own backend; ingresses without rules overwrite the default listener's map, naming their pool unchecked |
| `BuildDefaults.DefaultsClashIff` | pkg/appgw/requestroutingrules.go:348-371 | A path map has both a default redirect and a default pool if and only if a rule that does not redirect brings a pool behind all rules that do |
| `BuildDefaults.DefaultsCanMix` | pkg/appgw/requestroutingrules.go:348-360 | Of two rules for one listener, the second without endpoints: the pool of the first stands with the settings of the second |
| `BuildTraffic.TrafficIsWanted` | pkg/appgw/requestroutingrules.go:24-371 | The emitted rules and path maps send every path on every listener to exactly one goal, and it is where the ingresses want it: where the first path so written leads, or else where the defaults do |
| `BuildResources.ListenersAreWritten` | pkg/appgw/frontend_listeners.go:143-193 | Every emitted listener has its identifier's port, the first frontend IP of its kind, its host names, one alone or several together, the protocol of its port, the certificate of the last asking rule's TLS entry and that ingress' policy |
| `BuildResources.AskedIsEmitted` | pkg/appgw/frontend_listeners.go:46-53 | Every listener asked for is emitted, except a private one whose port a public one has |
| `BuildResources.RedirectMadeIff` | pkg/appgw/redirects.go:20-65 | The redirect to a listener exists if and only if that is an emitted HTTPS listener and the last rule to ask for it belongs to an ingress with ssl-redirect |
| `BuildResources.SslRedirectIff` | pkg/appgw/requestroutingrules.go:239-253 | A rule with ssl-redirect and a certificate has its HTTP listener redirected if and only if the last rule to ask for the HTTPS listener of those hosts has ssl-redirect too |
| `BuildResources.SslRedirectIsAttached` | pkg/appgw/requestroutingrules.go:239-253 | When all rules for those hosts have it, the redirect is the default of the HTTP listener's path map |
| `BuildResources.SslRedirectIsLost` | pkg/appgw/ingress_rules.go:47-61 | When the last such rule has not, nothing on the HTTP listener is redirected, whatever the other ingresses ask for |
| `BuildResources.PoolsAreWritten` | pkg/appgw/backendaddresspools.go:31-98 | The pools are the default one and, for each recorded backend whose port some endpoint offers over TCP, the one named for service, port and backend port |
| `BuildResources.SettingsAreWritten` | pkg/appgw/backendhttpsettings.go:159-199 | Settings are the default ones or named for the service, port and ingress of a recorded backend, with that backend's port and probe; and every recorded backend has settings of its name and port |
| `BuildResources.ProbesAreWritten` | pkg/appgw/health_probes.go:43-76 | The probes are the two default ones and, for each path that names an existing service, its own |
| `BuildResources.CertsAreWritten` | pkg/appgw/certificates.go:24-95 | The certificates are those named for the TLS entries whose secret has one |
| `BuildListeners.PortsAreExact` | pkg/appgw/frontend_listeners.go:39-96 | The emitted ports are exactly those of emitted listeners, one per number and ID, and a listener's port reference leads to the number in its identifier |
| `BuildListeners.RecoveredIff` | pkg/appgw/frontend_listeners.go:195-226 | The identifier rebuilt from a listener is the original with blanks squeezed out: the original itself if and only if its host names have no gap |
| `BuildListeners.GroupedByOwnId` | pkg/appgw/frontend_listeners.go:195-226 | Without gaps, grouping gives back exactly the admitted identifiers, each with its own listener |
| `BuildEdges.OneRulePerListenerHosts` | pkg/appgw/requestroutingrules.go:64-121 | In any visiting order, every emitted listener has exactly one rule, made from its own path map, and there are no other rules, if no HTTP rule has a blank host name before a non-blank one among its first five, and only if, when no port is shared by both IP kinds |
| `BuildEdges.GaplessConfigsIff` | pkg/appgw/configbuilder.go:186-213 | The configured identifiers have no gap if and only if the hosts of every HTTP rule have none |
| `BuildEdges.NonBlankHostsLeaveNoGap` | pkg/appgw/configbuilder.go:202-210 | Non-blank extension hosts leave no gap |
| `BuildDangling.RefsResolveExactly` | pkg/appgw/requestroutingrules.go:123-184 | For any ingresses: every reference resolves, unless the default listener is configured, some ingress without rules is the last to name its pool, no later rule that serves it brings a redirect or a pool with endpoints, and no backend of that pool name has endpoints; and then one does not |
| `BuildDangling.RefsResolveOnInput` | pkg/appgw/requestroutingrules.go:123-184 | When all backends resolve, that condition is on the input alone |
| `BuildDangling.RefsResolveWhateverStops` | pkg/appgw/requestroutingrules.go:123-184 | Whichever unresolved backend stops the loop: if no port pairs it can end with dangle, every reference of every build resolves |
| `BuildDangling.LoneBareIngressDangles` | pkg/appgw/requestroutingrules.go:133-146 | With one ingress and no rules the condition holds if and only if no endpoint offers its default backend's port |
| `BuildReferences.RefsResolveWithEndpoints` | pkg/appgw/requestroutingrules.go:123-146 | Every reference resolves when each ingress has rules, or endpoints behind its default backend |
| `BuildValidation.ValidateUrlPathMaps` | pkg/appgw/validators.go:75-114 | On any path maps: accepts if and only if each map without path rules has exactly one of default redirect and default backend, and each path rule exactly one of redirect and backend; otherwise it rejects, or crashes if and only if the first map that fails has no list of path rules |
| `BuildValidation.BuildIsValid` | pkg/appgw/validators.go:75-114 | Every path map of a build satisfies it, and each path rule has a redirect or both pool and settings, never both and never neither |
| `BuildValidation.BasicRulesHaveOneTarget` | pkg/appgw/requestroutingrules.go:86-99 | Every basic rule of a build has a redirect or both pool and settings, never both and never neither |
| `BuildValidation.RedirectsLeadToHttps` | pkg/appgw/requestroutingrules.go:239-253 | A redirect attached anywhere in a build belongs to an HTTP listener whose HTTPS identifier, with the same host names and IP kind, is configured, and that identifier's own map redirects nowhere, so redirects never chain |
| `BuildEdges.RedirectTargetIsHttps` | pkg/appgw/redirects.go:20-65 | Every redirect attached in a build leads to an emitted listener whose protocol is HTTPS, with the host names and the IP kind of the HTTP listener it is attached to |
| `BuildEdges.RedirectTargetIsTwin` | pkg/appgw/redirects.go:20-65 | Without gaps that target is the listener emitted for the HTTPS identifier itself |
| `BuildOrder.OrderDoesNotMatter` | pkg/appgw/frontend_listeners.go:39-99 | When existing port names are distinct, all backends resolve and no port serves both IP kinds, any two builds from one input emit the same sorted lists of listeners, ports, redirects, path maps and routing rules, and the same pools |
| `Sorting.SortBy` | pkg/appgw/frontend_listeners.go:98-99 | The result is the list permuted, in order of the key |
| `Sorting.SortedIsUnique` | pkg/appgw/frontend_listeners.go:98-99 | Lists with the same elements, sorted by a key that tells them apart, are the same list |
| `BuildEdges.AdmissionDeterminedIff` | pkg/appgw/frontend_listeners.go:46-53 | Which listeners are admitted is independent of the visiting order if and only if no port is asked for by both IP kinds |
| `BuildEdges.BlankHostLeavesGap` | pkg/appgw/configbuilder.go:186-213 | A blank extension host between two others yields an identifier with a gap |
| `BuilderPasses.NewHostToSecretMap` | pkg/appgw/certificates.go:97-130 | The loop yields the map that HostToSecretIsLastCovering describes |
| `BuilderPasses.GetListenerConfigs` | pkg/appgw/frontend_listeners.go:109-141 | The loops over ingresses yield the configured listeners, which ConfiguredIff and ConfigIsLastAsked describe |
| `BuilderPasses.ComputeListeners` | pkg/appgw/frontend_listeners.go:22-107 | One listener per admitted identifier, a private one left out only when a public one has its port, and the known ports they use, both sorted by name; it crashes if and only if a configured listener finds no frontend IP of its kind |
| `BuilderPasses.GroupListeners` | pkg/appgw/frontend_listeners.go:195-226 | The listeners by the identifiers rebuilt from them |
| `BuilderPasses.ComputeRedirects` | pkg/appgw/redirects.go:20-65 | One redirect for each existing HTTPS listener whose configuration names one, leading to it, sorted by name |
| `BuilderPasses.GetCerts` | pkg/appgw/certificates.go:24-50 | The certificates of all usable secrets of all ingresses |
| `BuilderRules.GetPathMap` | pkg/appgw/requestroutingrules.go:214-282 | What one ingress rule contributes: redirect, or the last default path's backend, or the ingress' own, or the defaults, with its path rules; PathRulesAreWritten and MapDefaults say what these are in the ingress' own terms |
| `BuilderRules.MergePathMap` | pkg/appgw/requestroutingrules.go:348-371 | The in-place merge leaves in the object the merge of its old properties with the contribution |
| `BuilderRules.GetPathMaps` | pkg/appgw/requestroutingrules.go:150-212 | The loops over mutable path-map objects end with each listener's object holding its map of PathMaps, each object under one identifier |
| `BuilderRules.ComputeRules` | pkg/appgw/requestroutingrules.go:24-121 | One rule for each identifier with both a path map and a listener, and the path maps that have path rules, both sorted by name |
| `Builder.ConfigBuilder.GetListeners` | pkg/appgw/frontend_listeners.go:22-37 | The first result is remembered and returned by every later call |
| `Builder.ConfigBuilder.GetRedirects` | pkg/appgw/redirects.go:20-27 | Likewise, and it fits the listeners remembered |
| `Builder.ConfigBuilder.GetPairs` | pkg/appgw/backendhttpsettings.go:69-75 | Likewise for port pairs and settings; failures are not remembered |
| `Builder.ConfigBuilder.Build` | pkg/appgw/configbuilder.go:77-119 | The passes in order, with memoised results, meet the specification of every pass |
| `Builder.RunBuild` | pkg/appgw/configbuilder.go:77-119 | A whole build emits a result that the specification allows; or fails because a backend has several port pairs; or panics because a configured listener finds no frontend IP of its kind, in which case it never emits anything |
| `Builder.BuildAndValidate` | pkg/appgw/configbuilder.go:132-138 | The post-build validator accepts every build, and the gateway emitted is one the specification of the build allows |
| `Secrets.RunKeeps` | pkg/k8scontext/ingress_handlers.go:28-47 | After every run of events that does not crash, each tracked secret of the TLS type from which openssl makes a certificate is in the store with it, in its current version; tracked keys lie in namespaces that are configured, if any are, and not system ones; the store holds only secrets that exist |
| `Secrets.CrashIff` | pkg/k8scontext/secrets_handlers.go:66-81 | The delete handlers dereference the pointer of a failed type assertion: a run crashes if and only if some deletion is delivered as anything but the object itself |
| `Secrets.CertificatesAreDelivered` | pkg/k8scontext/secretstore.go:64-128 | After every run each stored certificate is what openssl makes of key and certificate of some delivered version of that secret, of the TLS type |
| `Secrets.TrackedAfterAddIff` | pkg/k8scontext/ingress_handlers.go:28-47 | After an ingress is added, a secret it mentions is tracked for it if and only if it was already, or is absent, or already referenced, or converts |
| `Secrets.TrackedAfterUpdateIff` | pkg/k8scontext/ingress_handlers.go:104-124 | After an update with TLS entries, exactly the mentioned secrets are tracked that are absent, or referenced by other ingresses, or convert |
| `Secrets.UntrackedAfterDelete` | pkg/k8scontext/ingress_handlers.go:78-79 | After an ingress is deleted exactly its own pairs are gone |
| `Secrets.TrackedChangeIsAnnounced` | pkg/k8scontext/secrets_handlers.go:27-38 | A step queues at most one piece of work, and exactly one whenever it changes what is tracked or the stored certificate of a tracked secret |
| `Secrets.IngressSetDoes` | pkg/k8scontext/ingress_handlers.go:15-131 | What a new or changed ingress does to cache, references of others, store and queue: it is handled if and only if its namespace is observed, the object differs and it, or what it was, is ours; then the mentioned secrets that exist, convert and were not referenced are stored, and one piece of work of the right kind is queued |
| `Secrets.SecretSetDoes` | pkg/k8scontext/secrets_handlers.go:19-64 | A secret is stored and announced if and only if its namespace is observed, the object differs, some ingress refers to it and it converts; nothing else changes |
| `Secrets.SecretGoneDoes` | pkg/k8scontext/secrets_handlers.go:66-96 | A deleted secret of an observed namespace leaves the store, and is announced if and only if it is referenced |
| `Secrets.IngressGoneDoes` | pkg/k8scontext/ingress_handlers.go:55-86 | A deleted ingress of ours in an observed namespace loses its references and is announced; any other changes nothing but the cache |
| `Secrets.RepairedSecretIsMissed` | pkg/k8scontext/ingress_handlers.go:37-43 | A secret that did not convert when its ingress was added is not in the store after being repaired |
| `Secrets.KeyInjective` | pkg/utils/utils.go:19-21 | With slash-free namespaces a resource key determines namespace and name |
| `SecretsImpl.MultiMap.Insert` | pkg/utils/threadsafemultimap.go:40-48 | Adds exactly one pair |
| `SecretsImpl.MultiMap.Clear` | pkg/utils/threadsafemultimap.go:51-58 | Removes exactly the pairs of the key, keeping the key |
| `SecretsImpl.MultiMap.Erase` | pkg/utils/threadsafemultimap.go:61-72 | Removes the key with its pairs and says whether it was there |
| `SecretsImpl.MultiMap.ContainsValue` | pkg/utils/threadsafemultimap.go:103-114 | True if and only if some key has the value |
| `SecretsImpl.SecretsStore.ConvertSecret` | pkg/k8scontext/secretstore.go:64-128 | Succeeds exactly when the secret has the TLS type, key and certificate and openssl makes something of them, and then stores that; otherwise the store is unchanged |
| `SecretsImpl.K8sContext.IngressAdd` | pkg/k8scontext/ingress_handlers.go:15-53 | The handler takes the context to the state the state machine gives, work queue included |
| `SecretsImpl.K8sContext.IngressUpdate` | pkg/k8scontext/ingress_handlers.go:88-131 | The same for updates |
| `SecretsImpl.K8sContext.IngressDelete` | pkg/k8scontext/ingress_handlers.go:55-86 | The same for deletions, given an object, a tombstone or something else, nil dereference included |
| `SecretsImpl.K8sContext.SecretAdd` | pkg/k8scontext/secrets_handlers.go:19-39 | The same for new secrets |
| `SecretsImpl.K8sContext.SecretUpdate` | pkg/k8scontext/secrets_handlers.go:41-64 | The same for changed secrets |
| `SecretsImpl.K8sContext.SecretDelete` | pkg/k8scontext/secrets_handlers.go:66-96 | The same for deleted secrets |
| `SecretsImpl.K8sContext.Serve` | pkg/k8scontext/context.go:97-121 | A context fed any sequence of events ends in the state of the run, with its store current for every tracked secret |
| `JsonTree.DeleteKey` | pkg/controller/helpers.go:108-135 | The recursive loop over a map in any order yields the cleaned tree |
| `JsonTree.DeleteKeys` | pkg/controller/helpers.go:138-148 | Deleting a list of keys one after the other yields the tree cleaned of each |
| `JsonTree.LookupClean` | pkg/controller/helpers.go:108-135 | A path through a deleted key leads nowhere afterwards; every other path leads to the same value, cleaned, or unchanged inside an array within an array |
| `JsonTree.NoKeyRemains` | pkg/controller/helpers.go:111-114 | Wherever a path through objects and arrays of objects leads, no key equal ignoring case is left |
| `JsonTree.NestedArrayKeepsKey` | pkg/controller/helpers.go:124-132 | A key inside an array within an array stays |
| `JsonTree.CleanIdempotent` | pkg/controller/helpers.go:108-135 | Deleting a key twice is deleting it once |
| `JsonTree.CleanCommutes` | pkg/controller/helpers.go:144-146 | Deletions of two keys commute |
| `JsonTree.SameScalars` | pkg/controller/helpers.go:108-135 | Trees that clean to the same agree on every scalar that no deleted key hides |
| `DeployCache.Controller.ConfigIsSame` | pkg/controller/helpers.go:46-65 | True exactly when the cache pointer is set, marshalling succeeds and the cached bytes are those of the sanitised configuration |
| `DeployCache.Controller.UpdateCache` | pkg/controller/helpers.go:28-43 | Writes the sanitised configuration through the pointer; when marshalling fails only the copy's pointer changes |
| `DeployCache.Controller.MutateAppGateway` | pkg/controller/mutate_app_gateway.go:60-204 | The outcome and the shared cache after one call, for every way it can end: which failure comes when, and when a failing deployment ends the process |
| `DeployCache.CacheIsLastRecorded` | pkg/controller/mutate_app_gateway.go:149-199 | After every run the cache is the encoded, sanitised form of the last deployed configuration that could be marshalled in this process, or empty if there is none |
| `DeployCache.SkippedIff` | pkg/controller/mutate_app_gateway.go:149-152 | A call is skipped if and only if it gets past fetching, validating and building and its configuration equals the last recorded one up to etag and tags |
| `DeployCache.CacheIsCurrentIff` | pkg/controller/helpers.go:28-43 | The cache is empty or current for the last deployment, if and only if nothing is recorded or the last deployed configuration could be marshalled |
| `DeployCache.SkippedIsDeployed` | pkg/controller/mutate_app_gateway.go:149-199 | While marshalling succeeds, a skipped configuration equals the last deployed one up to etag and tags |
| `DeployCache.SameOutsideEtagAndTags` | pkg/controller/helpers.go:23-26 | Configurations equal up to etag and tags agree on every scalar not under such a key |
| `DeployCache.TagsMakeNoDifference` | pkg/appgw/configbuilder.go:215-228 | The tags that Build sets on its own copy do not affect the comparison |
| `DeployCache.FailureDoesNotReset` | pkg/controller/mutate_app_gateway.go:160-163 | After a deployment, a failed one and the first configuration again, the third call is skipped |

## Left out

- Azure clients, authentication, the HTTP server, metrics, logging and event recording: input and output only.
- The Istio path of the compiler: its intended behaviour is not settled by the code.
- A brownfield build from end to end: routing rules and path maps are composed in `SharedRouting`, the other merges are modelled one by one, and the compiler without them.
- The order by name in which path maps and rules leave RequestRoutingRules on a shared gateway: `SharedRouting` leaves it open.
- Informer threads, channels and mutexes: an informer's cache update and its handler are one step, and sending work never blocks.
- The openssl call, MD5 names and the JSON encoder: a function from secret data to an optional certificate, injective names, and any injective encoder with non-empty output.
- Lower-casing beyond ASCII: `Strings.Lower` maps the letters A to Z and nothing else.
- Probe fields, pool addresses, cookie and timeout annotations: no effect on which resources exist and refer to which.
- The comparators of pkg/sorter beyond a strict order of names, and the sorting of pools, settings, probes and certificates, which nothing reads again: those are sets or lists in any order.
- The multimap's EraseValue: nothing calls it.
- Server name indication, which newListener requires of HTTPS listeners with a host on V1 gateways only.
- A reference object that is present but has a nil ID: the same as an absent one in the model, where the code guards both alike; following a path map reference with a nil ID would panic.
- Shared sub-trees in deleteKey: `JsonTree.DeleteKey` returns a new tree, since unmarshalling never shares a sub-tree between two places.
- Merging certificates and ports of an existing gateway: by-name merges like those modelled.
- PreBuildValidate and the fatal validation of the existing gateway: only their outcome enters the model of MutateAppGateway.
- RuleMergingImpl.MergeRules: requires that no two path maps of the gateway share a properties object, as unmarshalling it gives; so does RuleMergingImpl.MergeRoutingRules.
- PathMapMerging.MergePathMaps: requires that no two path maps share a properties object, as unmarshalling the gateway and building path maps give.
- Retained.RetainPathMaps: requires the same of the gateway as Classification.RefProhibitedIff, and that no two path maps share a properties object; so do SharedRouting.RequestRoutingRules and SharedRouting.StillProhibitedIff.
- Classification.RefProhibitedIff: requires distinct rule names, which the gateway enforces and without which it is false, and that in path maps pools and settings come together.
- ClassificationImpl.MergeByName: stands for MergePools, MergeHTTPSettings, MergeProbes and MergeRedirects, which differ only in the type merged.
- Builder.RunBuild: requires existing ports keyed by their number, as its caller makes them.
- BuildTraffic.TrafficIsWanted: requires that no rule has a blank host name before a non-blank one, without which OneRulePerListenerHosts fails, and the same of ports and frontend IPs as the next line; so do BuildResources.RedirectMadeIff and the lemmas on ssl-redirect.
- BuildEdges.OneRulePerListenerHosts: requires distinct IDs of existing ports and frontend IPs, and no frontend IP that is both public and private; so do BuildEdges.RedirectTargetIsHttps and BuildDangling.RefsResolveExactly.
