# Verified model of the gateway core

This project models the parts of lumen-gateway that carry its hard guarantees and proves those
guarantees for all inputs, all runs and all interleavings.

* **Hot reload.** `SnapshotLifecycle` is the lock-free acquire / re-check / release / Close protocol
  of a runtime snapshot, one atomic operation per step, any number of calls. `DrainSafety` states
  when draining is safe; `GatewayRuntime` puts every snapshot inside the gateway with its published
  pointer, Reload, Shutdown and the acquire loop of a request. `GatewayDrain` and `GatewayProgress` carry
  safety and progress over to it, `GatewayOwnership` accounts for every closer, `RequestOutcome` for every
  request, and `ShutdownRun` is one complete run.
* **Routing.** `RouteTable`, `FastTable`, `Router` and `RouteOrder`: compiled paths, packed scores,
  the full scan, and the pre-sorted table that replaces it; `HostMatch` and `PathMeaning`: what the texts of a route's
  hosts and paths mean. `Text` holds the string operations.
* **Compiling options.** `Config` (Options.Validate), `Plugins` (registry, plugin chains),
  `PluginOwners` (whose plugins are built and what closers they hand over) and `Compile`
  (Compiler.Compile and the dispatch of a matched request).
* **Control plane.** `Json` (patch merge against RFC 7396), `ControlPlane` (writes, bundles, prune
  kinds, export as values), `BundleApply`, `History`, `Service` (module `ControlPlaneService`),
  `Preview`, `Validation`, `SnapshotCheck`.
* **APISIX translation.** `Translate` (the loops), `TranslateMeaning` (what they build, key by key),
  `TranslateOrder` (when the order of visits matters), `TranslateReach` (where routes lead),
  `TranslateResults` (contents, and what Validate accepts) and `TranslateExamples`. Everything but the
  corollaries named as such below holds for every snapshot.
* **Small engines.** `RoundRobin`, `LimitCount`, and the metrics index in `Labels`, `LabelParse`,
  `Metrics`, `MetricIndex`, `Recorder`, `RouteStats`.

Objects whose methods change their fields are classes (`Router`, `Registry`, `Balancer`, `Limiter`,
`Service`, `MemoryRecorder`); loops are loops. Maps that Go visits in an unspecified order are visited
in an arbitrary order, so every postcondition holds for every order; in `Translate` the order is an
explicit parameter because results depend on it. Every lemma is marked `{:induction false}`: all
induction is written out.

## Where the code does not meet the obvious claim

* Draining is not safe at the granularity of atomic operations: `release` decrements and reads the
  state in two steps. `DrainSafety.HazardIsExact` gives the exact condition, `ViolatingRunExists`
  builds a violating run of one snapshot and `GatewayDrain.ReloadCanBeUnsafe` a violating Reload
  (`GatewayHazardIsExact` for any reachable gateway), and
  the repair that re-reads the count makes every run safe (`RepairedDrainSafe`,
  `RepairedGatewayIsSafe`). The comment inside Close, that the snapshot is never used after its
  in-flight check, holds of new acquires only (`NoLateAcquire`).
* The packed score is lexicographic exactly for patterns below 100 000 bytes
  (`RouteOrder.PackingLimit`), and its comparison is right exactly if the difference of the scores
  fits 64 bits (`FastTable.CompareIsRightIff`, `RouteOrder.TwoRoutesAgreeIff`).
* An empty method name is a wildcard in the fast table and not in the scan: the table answers for the
  routes with such method lists emptied (`FastTable.FirstMatchIsBest`), so it agrees with the scan on
  a request exactly if no such route intrudes (`RouteOrder.AgreeIffNoIntruder`).
* Patch merge keeps nulls inside a patch object that lands on a missing or non-object member;
  `Json.MergeAgreesIff` and `PatchTwiceIff` give the exact condition for agreeing with RFC 7396 and
  for idempotence.
* Pruning with an empty selection and an empty bundle deletes all five kinds
  (`ControlPlane.PruneFrame`, `EmptyBundlePrunesEverything`).
* A preview accepts an empty resource id that apply refuses, and that is the only difference
  (`Preview.ApplicableIff`, `EmptyIdIsPreviewedOnly`).
* History ids are compared as strings. That is the order of the clock readings exactly if the ids have
  equal length or the shorter one does not exceed the front of the longer (`History.IdOrderIsRightIff`,
  `ShorterIdOutranks`); readings from 10^18 to below 10^19 have one length (`ClockIdsHaveOneLength`).
* Of two different routes that tie at the top the one added first wins, and a compile adds routes in
  map order, so such a request is answered differently from one compile to the next; this happens
  exactly for such ties (`RouteOrder.WinnerIgnoresAddOrderIff`).
* The result of a translation depends on the order in which Go visits the maps exactly if two services
  store different inline upstreams under one name, or a service names an upstream that others store
  inline and comes out differently before and after them, or a route refers to a service or an
  upstream that only comes into being when another resource is visited
  (`TranslateOrder.OrderIrrelevantIff`; one input of each kind in `TranslateExamples`).
* A kept route can be led to another upstream than the one it denotes: by a declared service under the
  name that is synthesized for its upstream, by an inline route that replaces its service, or by a
  service that stores another inline upstream under the same name. `TranslateReach.RouteReachesIff`
  says exactly when, `PrefixedServiceMisroutes` and `NamelessServiceMisroutes` are inputs.
* A declared upstream with an unsupported scheme is skipped, but an inline one, or any upstream with an
  unknown pass_host, fails the whole translation (`TranslateResults.TranslationSucceedsIff`). A route's
  APISIX priority is not carried over (`KeptRouteContent`).
* The round-robin ticket becomes negative past 2^63; Pick then panics unless the remainder is zero, and
  otherwise starts at the first endpoint.
* Limiter scopes that contain the separator can share buckets (`LimitCount.ScopesCollideIff`), and
  because the clock is read before the lock, a window admits the sum over its contiguous blocks of the
  block's length up to Count (`AdmittedIsBlockSum`, `BlockBoundIsReached`): more than Count exactly if
  more than Count arrivals come in several blocks (`BlockBound`).
* `parseLabelKey` recovers labels only if no value has a comma, quote, backslash or newline
  (`LabelParse.ParseRecoversIff`), although rendering itself is injective for all values.

## Model

| member | source | states |
|---|---|---|
| `SnapshotLifecycle.FireInv` | internal/gateway/gateway.go:264-319 | every atomic step of Close, acquire and release keeps the invariant: the count is the number of counted calls, one owner, one signaller, no lost wake-up |
| `SnapshotLifecycle.ExecInv` | internal/gateway/gateway.go:264-319 | the invariant holds after every schedule with any number of arriving calls |
| `DrainSafety.OnceOnlyAndNoLostWakeUp` | internal/gateway/gateway.go:264-319 | in every run each channel is closed at most once, closers run at most once and in order, and a waiting Close is owed a wake-up |
| `DrainSafety.DrainSafe` | internal/gateway/gateway.go:264-319 | no closer runs while a request holds the snapshot, in every run that does not close in a hazard |
| `DrainSafety.HazardIsExact` | internal/gateway/gateway.go:266-280 | from the step that moves open to closing an unsafe state is reachable if and only if a releaser that saw zero and a holder exist at that moment |
| `DrainSafety.ViolatingRunExists` | internal/gateway/gateway.go:309-313 | a run of the code as it is reaches closers running under a holder |
| `DrainSafety.RepairedDrainSafe` | internal/gateway/gateway.go:309-313 | re-reading the count after seeing closing makes every run safe |
| `DrainSafety.NoLateAcquire` | internal/gateway/gateway.go:295-307 | whoever holds the snapshot after it left the open state held it already then |
| `DrainSafety.ClosedOnceOnly` | internal/gateway/gateway.go:264-293 | a snapshot never reopens, the call that won the swap stays its only owner, and no other Close call returns as the winner |
| `DrainSafety.StepsAreBounded` | internal/gateway/gateway.go:264-319 | without new arrivals every schedule is bounded by a rank of the calls |
| `DrainSafety.QuiescentIsFinished` | internal/gateway/gateway.go:264-319 | no deadlock: where no call can move, all have returned |
| `DrainSafety.CloseFinishes` | internal/gateway/gateway.go:264-293 | once the holders release, Close returns with the channel closed and every closer run once in reverse order |
| `GatewayRuntime.StepInv` | internal/gateway/gateway.go:166-195 | every move of requests, Reloads and Shutdowns keeps the gateway invariant |
| `GatewayRuntime.PublishedIsOpen` | internal/gateway/gateway.go:166-195 | the published snapshot is open in every reachable state; a retired one has exactly one Close call |
| `GatewayRuntime.RetriesAreBounded` | internal/gateway/gateway.go:224-236 | retries are bounded by the swaps since arrival, and a refused acquire finds nil or a strictly later publication |
| `GatewayRuntime.SettledIsFinished` | internal/gateway/gateway.go:179-236 | when nothing can move, every request is answered and every Reload and Shutdown has returned |
| `GatewayRuntime.NoCloserClosedTwice` | internal/gateway/gateway.go:282-288 | in every reachable state the closers run so far are a prefix of the reverse registration order |
| `GatewayOwnership.ReachableAccounted` | internal/gateway/gateway.go:166-195 | in every reachable state every closer that a registry ever received is, as often as it was received, with a snapshot, with a compile under way or being undone, or with a failed compile |
| `GatewayOwnership.EveryCloserClosedOnce` | internal/gateway/gateway.go:166-195 | after any settled run ending with the pointer at nil, every closer that any registry ever received, in failed compiles or not, has been closed as often as it was received, in reverse order of registration |
| `GatewayDrain.RepairedGatewayIsSafe` | internal/gateway/gateway.go:166-319 | with the repaired release no reachable state of the gateway has a snapshot past its drain that a request holds |
| `GatewayDrain.HazardFreeGatewayIsSafe` | internal/gateway/gateway.go:166-319 | with the code as it is this holds for every run in which no snapshot starts to close in a hazard |
| `GatewayDrain.GatewayHazardIsExact` | internal/gateway/gateway.go:266-280 | in any reachable gateway, after the step that moves a snapshot from open to closing, that snapshot can become unsafe if and only if a releaser that saw zero and a holder existed at that moment |
| `GatewayDrain.ReloadCanBeUnsafe` | internal/gateway/gateway.go:179-195 | with the code as it is a Reload reaches a state in which closers run under a holder |
| `GatewayProgress.RunsAreBounded` | internal/gateway/gateway.go:166-236 | without new callers every run of requests, Reloads and Shutdowns is bounded by a rank, retries included |
| `GatewayProgress.GatewaySettles` | internal/gateway/gateway.go:166-236 | every reachable state can be continued to one in which all requests are answered and all Reloads and Shutdowns have returned |
| `RequestOutcome.ServedIffHeld` | internal/gateway/gateway.go:295-319 | over every run of calls on a snapshot, an acquire and release that has returned was served if and only if it held the snapshot |
| `RequestOutcome.UnavailableIff` | internal/gateway/gateway.go:224-236 | over every run a request is turned away if and only if it loaded the pointer while that was nil; a refused acquire goes round the loop |
| `RequestOutcome.RequestIsDecided` | internal/gateway/gateway.go:197-262 | a settled run has turned away every request that met nil, and answered every other one from a snapshot that its call had held before |
| `RequestOutcome.ReloadsLoseNoRequest` | internal/gateway/gateway.go:179-236 | as long as no Shutdown swaps the pointer no request is ever turned away, whatever is reloaded, and in the end all are answered |
| `RequestOutcome.NeverStale` | internal/gateway/gateway.go:224-236 | a request is never on a snapshot older than the one that was published when it arrived |
| `ShutdownRun.ShutdownRunExists` | internal/gateway/gateway.go:166-177 | a run of Shutdown reaches a settled state with the pointer at nil and all closers run, so the result above is not vacuous |
| `Config.Validate` | internal/config/options.go:151-231 | accepts exactly the options with closed references, resolvable plugin refs and well-shaped upstreams |
| `Config.ValidatePluginRefs` | internal/config/options.go:249-262 | accepts exactly refs that use a declared plugin or carry a name |
| `HostMatch.HostMeaning` | internal/router/router.go:112-150 | a host pattern matches exactly the host itself in any case, "*.x" exactly hosts of the form front.x, "x.*" exactly x.rest |
| `HostMatch.MatchHost` | internal/router/router.go:112-136 | accepts exactly if no host is listed or one of the patterns fits |
| `HostMatch.MatchMethod` | internal/router/router.go:100-110 | accepts exactly if no method is listed or one is equal in upper case |
| `PathMeaning.TrimMeaning` | internal/router/router.go:312-316 | trimming takes the blanks from both ends of a text, and all of them |
| `PathMeaning.FormMeaning` | internal/router/router.go:312-368 | every pattern text has exactly one form: blank, "=x", "~*e", "~e", "x*" or x |
| `PathMeaning.PatternMeaning` | internal/router/router.go:312-368 | compilePath refuses exactly blank texts and regexes that are empty or do not compile; what it makes of the others accepts exactly the path x, the paths with prefix x, or those that the engine matches with e, with the strength of that form |
| `PathMeaning.BestPathMeaning` | internal/router/router.go:281-309 | the best score is positive exactly if some pattern text of the route accepts the path |
| `PathMeaning.NoneIsStronger` | internal/router/router.go:281-309 | and no pattern text that accepts the path is stronger |
| `PathMeaning.RouteMeaning` | internal/router/router.go:54-66 | a compiled route matches a request exactly if one of its methods, one of its host texts and one of its path texts fit, none listed for methods or hosts being any |
| `Text.FoldMeaning` | internal/router/router.go:105 | equal under folding is equal letter by letter up to case |
| `Text.UpperMeaning` | internal/router/router.go:43 | upper case folds to the text it came from and has no lower-case letter |
| `RouteTable.BestPathIsMax` | internal/router/router.go:281-309 | the best path score is attained by a matching path and exceeded by none |
| `RouteTable.PackedExactIff` | internal/router/router.go:68-76 | the packed score is the exact one if and only if that fits 64 bits |
| `FastTable.SortSorts` | internal/router/router.go:231-236 | if all differences of scores fit 64 bits the table is sorted by descending score, then by Add order |
| `FastTable.SortPermutes` | internal/router/router.go:231-236 | sorting loses and invents no entry |
| `FastTable.CompareIsRightIff` | internal/router/router.go:231-236 | the comparison orders two different scores rightly if and only if the difference it computes fits 64 bits |
| `FastTable.FirstMatchIsBest` | internal/router/router.go:81-98 | for every plain table whose scores and their differences fit 64 bits, the first matching entry belongs to the best route of the table with empty method names read as wildcards, ties included |
| `FastTable.NoEntryMeansNoRoute` | internal/router/router.go:81-98 | for every plain table no matching entry means no matching route, empty method names read as wildcards |
| `Router.Router.Add` | internal/router/router.go:27-40 | accepts exactly a route with an id and path texts of which none is refused; appends its compiled form, which matches what the texts stand for, or changes nothing, and keeps the fast table in step |
| `Router.Router.RebuildFastRoutes` | internal/router/router.go:193-239 | the fast table is enabled exactly if no route has hosts or a regex path, and then holds the sorted entries of all routes |
| `Router.Router.Scan` | internal/router/router.go:48-78 | returns the matching route of highest score, the first added among equals, or none if none matches |
| `Router.Router.MatchFast` | internal/router/router.go:81-98 | returns the first matching entry of the table |
| `Router.Router.Match` | internal/router/router.go:42-79 | no answer if and only if no route fits by its texts, and any answer is one that fits: the best one in the scan and, if the scores fit, in the fast table, where empty method names are read as wildcards |
| `RouteOrder.PackingLimit` | internal/router/router.go:241-252 | comparing packed scores is comparing (priority, kind, length) for all patterns below a limit if and only if the limit is at most 100 000 |
| `RouteOrder.LongPatternBeatsPriority` | internal/router/router.go:68-76 | past the limit a lower priority can win |
| `RouteOrder.WinnerIsLexGreatest` | internal/router/router.go:68-76 | no matching path of any matching route is lexicographically greater than the winner's |
| `RouteOrder.WinnerIgnoresAddOrderIff` | internal/gateway/compiler.go:164-181 | every order of Add gives the same winner if and only if no different matching route has its score |
| `RouteOrder.TieIsSamePattern` | internal/router/router.go:281-309 | without regex paths a tie means equal priority and the identical pattern |
| `RouteOrder.FastFindsWidened` | internal/router/router.go:81-98 | the fast table answers with route i exactly if i is the best of the widened table |
| `RouteOrder.AgreeIffNoIntruder` | internal/router/router.go:42-98 | fast table and scan give the same answer to a request if and only if no route with an empty method name stands before all that the scan finds |
| `RouteOrder.NamedTablesAgree` | internal/router/router.go:42-98 | on a table without hosts, regex paths and empty method names whose scores fit, fast table and scan give the same answer to every request |
| `RouteOrder.OneRouteAgreesIff` | internal/router/router.go:193-239 | for a table of one route fast table and scan give the same answers if and only if it lists no empty method name |
| `RouteOrder.TwoRoutesAgreeIff` | internal/router/router.go:231-236 | two matching one-entry routes of different score are answered alike if and only if the difference of their scores fits 64 bits |
| `RouteOrder.OverflowReversesTheTable` | internal/router/router.go:231-236 | such a pair of priorities, answered differently |
| `RoundRobin.PickFrom` | internal/balancer/roundrobin/roundrobin.go:25-43 | picks the cyclically first available endpoint from the ticket, from the start past 2^63; fails exactly if none is available, panics exactly for a negative remainder |
| `RoundRobin.Balancer.Pick` | internal/balancer/roundrobin/roundrobin.go:25-43 | takes one ticket and returns that outcome; an empty list takes none |
| `RoundRobin.FairShare` | internal/balancer/roundrobin/roundrobin.go:25-43 | any k*n consecutive tickets fall on each of n endpoints exactly k times |
| `RoundRobin.PickRounds` | internal/balancer/roundrobin/roundrobin.go:25-50 | k*n picks on n available endpoints below 2^63 choose each exactly k times, whatever the weights |
| `LimitCount.ExactlyMinPerWindow` | internal/plugin/builtin/limit_count.go:78-113 | windows in order: a window admits exactly min(Count, arrivals) |
| `LimitCount.WindowMeaning` | internal/plugin/builtin/limit_count.go:86-88 | window k past zero is [k*span, (k+1)*span); for readings below zero the truncating division gives window 0 both sides of zero |
| `LimitCount.SharedWindowIff` | internal/plugin/builtin/limit_count.go:86-88 | two readings past zero share a window if and only if both lie in one [k*span, (k+1)*span) |
| `LimitCount.TwiceCountInAnySpan` | internal/plugin/builtin/limit_count.go:78-113 | windows in order: no span of one window length admits more than 2*Count |
| `LimitCount.AdmittedIsBlockSum` | internal/plugin/builtin/limit_count.go:86-113 | any lock order: a window admits exactly the sum over its contiguous blocks of the block length up to Count |
| `LimitCount.BlockBound` | internal/plugin/builtin/limit_count.go:86-113 | so at most Count per contiguous block; and, for a positive Count, more than Count if and only if there are several blocks and more than Count arrivals |
| `LimitCount.BlockBoundIsReached` | internal/plugin/builtin/limit_count.go:86-113 | for every Count and every n a lock order with n blocks admits n*Count |
| `LimitCount.KeysAreIndependent` | internal/plugin/builtin/limit_count.go:90-99 | the bucket of a key depends on the arrivals with that key only |
| `LimitCount.ScopesCollideIff` | internal/plugin/builtin/limit_count.go:79-85 | two scopes can share a bucket if and only if one with the separator is a prefix of the other |
| `LimitCount.PlainScopesDoNotCollide` | internal/plugin/builtin/limit_count.go:79-85 | scopes without the separator never share a bucket |
| `LimitCount.SeparatorInScopeCollides` | internal/plugin/builtin/limit_count.go:79-85 | two different (scope, key) pairs with one bucket |
| `LimitCount.Limiter.Handle` | internal/plugin/builtin/limit_count.go:78-129 | the verdict and the remaining count are those of the key's own history of windows |
| `Plugins.Registry.Register` | internal/plugin/plugin.go:60-78 | refuses exactly an empty name, a missing factory, no scopes or a taken name, and otherwise adds the definition |
| `Plugins.Registry.AddCloser` | internal/plugin/plugin.go:114-119 | appends the closer, ignores a missing one, and keeps the registry holding all it received |
| `Plugins.Registry.Close` | internal/plugin/plugin.go:121-134 | closes every held closer once, last first, and forgets them |
| `Plugins.BuildPluginHandlers` | internal/gateway/gateway.go:439-502 | fails exactly if a registered plugin does not suit the scope or build; the handlers are the registered refs by descending priority, ties in list order; the registry receives the closers made before the first ref that does not build |
| `Plugins.HandlersMeaning` | internal/gateway/gateway.go:448-494 | the handlers run by descending priority of their plugins, refs of equal priority in list order; each carries the name and params of its ref or of the plugin that the ref uses, and every ref to a registered plugin has one |
| `Plugins.ReceivedUpTo` | internal/gateway/gateway.go:439-475 | those are the closers of all refs if the list builds, else of the refs before the failing one |
| `Plugins.OrderIsUnique` | internal/gateway/gateway.go:476-494 | there is only one such order |
| `PluginOwners.BuildFor` | internal/gateway/gateway.go:439-502 | one more owner is visited, and the closers received are those of the owners visited, none twice, all but the last built |
| `PluginOwners.OrderOfOwners` | internal/gateway/compiler.go:93-181 | visiting the same owners in another order hands over the same number of closers |
| `PluginOwners.BuiltHandsOverAll` | internal/gateway/gateway.go:439-475 | an owner whose plugins build hands over the closer of every ref that makes one |
| `Compile.CompileWith` | internal/gateway/compiler.go:77-192 | accepts exactly the options that compile; the registry received the closers of the owners visited, each once, up to a failing one on failure and of the global list, the server, every upstream, service and route on success; on failure all of them have been closed once in reverse, on success none |
| `Compile.CompileOptions` | internal/gateway/compiler.go:77-91 | the same; more than one server is refused before a registry exists |
| `Compile.CompileUpstreams` | internal/gateway/compiler.go:107-142 | one upstream per option with its plugins in order and its endpoints one for one, weights of zero read as one; on success every upstream has been visited, in any order |
| `Compile.CompileServices` | internal/gateway/compiler.go:144-162 | every service points at the upstream it names and runs its own plugins, then the upstream's, then the proxy, position by position |
| `Compile.CompileRoutes` | internal/gateway/compiler.go:164-181 | the router holds exactly the routes, each once, and every route has its chain: the global plugins, those of the server, those of the route and last the hand-over to its service, position by position |
| `Compile.NoDanglingDispatch` | internal/gateway/gateway.go:321-376 | on options that Validate accepts, every route of the router has a chain of global, server and route plugins that ends in a non-nil service with a non-nil upstream |
| `Compile.PickIsConfigured` | internal/gateway/compiler.go:107-142 | the balancer of a compiled upstream picks one of its configured endpoints for every ticket below 2^63 |
| `Compile.Serve` | internal/gateway/gateway.go:238-262 | 404 exactly if no route of the options fits the request; else the chain of the route that Match finds, which fits and leads to a service with an upstream, and never 503 |
| `Json.MergeAgreesIff` | internal/controlplane/controlplane.go:374-396 | mergeObject is MergePatch of section 2 of RFC 7396 if and only if no null lies inside a patch object landing on a missing or non-object member |
| `Json.PatchTwiceIff` | internal/controlplane/controlplane.go:374-396 | applying a patch twice equals once under exactly the same condition |
| `Json.NestedNullIsKept` | internal/controlplane/controlplane.go:374-396 | the smallest patch on which the code and the standard differ |
| `Json.MergeObject` | internal/controlplane/controlplane.go:374-396 | the key-by-key loop computes the merge in any order of keys |
| `ControlPlane.UnselectedKindIsUntouched` | internal/controlplane/filebundle.go:182-225 | apply leaves every other kind as it was |
| `ControlPlane.PruneFrame` | internal/controlplane/filebundle.go:410-435 | a kind is pruned if and only if pruning is on and it is listed; or nothing is listed and it is managed; or nothing is managed either and the bundle names it, or is empty and the kind is supported |
| `ControlPlane.DecodeMeaning` | internal/controlplane/controlplane.go:344-355 | a body decodes to its members, null to none, and nothing else decodes |
| `ControlPlane.EmptyBundlePrunesEverything` | internal/controlplane/filebundle.go:348-363 | the empty selection widens to all five kinds |
| `ControlPlane.RestoresExport` | internal/controlplane/filebundle.go:103-132 | applying an export with the kinds it manages gives back the exported ids, and bodies that differ at most in update_time |
| `BundleApply.PutGroup` | internal/controlplane/filebundle.go:194-206 | succeeds exactly on non-empty ids and decodable bodies; every named key is written, no other touched |
| `BundleApply.PruneGroup` | internal/controlplane/filebundle.go:207-222 | deletes exactly the ids of the kind that are not in the group |
| `BundleApply.ApplyBundle` | internal/controlplane/filebundle.go:182-225 | success, the new store key by key, the deleted keys as those of pruned kinds that the bundle does not name, Counts per kind; a failed apply has applied the kinds before the failing one, left those after it alone, and at most written keys of the bundle and deleted other keys of pruned kinds |
| `BundleApply.ExportBundle` | internal/controlplane/filebundle.go:103-132 | exports exactly the selected kinds' resources and fails exactly on an unsupported kind |
| `History.DecimalOrder` | internal/controlplane/historystore.go:96-98 | at equal length the string order of decimal ids is the order of the clock readings |
| `History.IdOrderIsRightIff` | internal/controlplane/historystore.go:96-98 | for decimal numerals of any lengths the string order is the order of the readings if and only if the lengths are equal or the shorter does not exceed the front of the longer |
| `History.ClockIdsHaveOneLength` | internal/controlplane/controlplane.go:398-400 | readings from 10^18 to below 10^19 nanoseconds have ids of one length |
| `History.ShorterIdOutranks` | internal/controlplane/historystore.go:96-98 | a pair of readings in the wrong order |
| `History.PositionIsRank` | internal/controlplane/historystore.go:77-103 | the position in the newest-first list is the number of larger ids |
| `History.SaveEntry` | internal/controlplane/historystore.go:49-75 | after Save exactly the entries with fewer than limit larger ids remain |
| `History.EntrySurvivesIff` | internal/controlplane/historystore.go:49-75 | with increasing ids a saved entry is found again, unchanged, if and only if fewer than limit entries were saved after it |
| `ControlPlaneService.Service.PutResource` | internal/controlplane/controlplane.go:130-142 | succeeds exactly on a supported kind, a non-empty id and a writable body, over any store; the key then holds the body member by member with id and timestamps, no other key changes; an error changes nothing |
| `ControlPlaneService.Service.PostResource` | internal/controlplane/controlplane.go:144-160 | the id comes from the body, as a string or rendered, else is generated; success and the stored body member by member as for a put |
| `ControlPlaneService.Service.PatchResource` | internal/controlplane/controlplane.go:162-182 | the stored body member by member: what the patch says, nothing for a null, merged objects, the current member where the patch is silent, then id and timestamps; no other key changes |
| `ControlPlaneService.Service.DeleteResource` | internal/controlplane/controlplane.go:184-192 | removes exactly the key of a supported kind with an id; every other key and the history stay |
| `ControlPlaneService.Service.Apply` | internal/controlplane/controlplane.go:198-200 | the store is that of the bundle applied and stays well formed; history is untouched |
| `ControlPlaneService.Service.SaveSnapshot` | internal/controlplane/controlplane.go:210-229 | the entry is the export of the store, saved under retention |
| `ControlPlaneService.Service.Rollback` | internal/controlplane/controlplane.go:241-258 | finds the entry, applies it with its managed kinds, saves what it restored; errors exactly if one of these fails |
| `ControlPlaneService.RunKeepsWellFormed` | internal/controlplane/controlplane.go:130-192 | every run of calls keeps each body's id equal to its key with create_time present |
| `ControlPlaneService.RunKeepsCreateTime` | internal/controlplane/controlplane.go:306-342 | over every run a live resource keeps its create_time unless a call supplies one; a null in a patch does not |
| `ControlPlaneService.HistoryIsSaves` | internal/controlplane/controlplane.go:210-229 | the history after a run is the history before with the run's entries saved in turn |
| `ControlPlaneService.RollbackRestores` | internal/controlplane/controlplane.go:210-258 | after a save, any calls and fewer than limit further saves, rollback succeeds, restores every exported kind up to update_time and touches no other kind |
| `ControlPlaneService.RollbackTooLate` | internal/controlplane/controlplane.go:241-258 | after limit or more further saves it is an error that changes nothing |
| `Preview.PreviewPredictsApply` | internal/controlplane/preview.go:52-169 | the plan's action for a key is the difference between the stores before and after apply, in members other than the two timestamps |
| `Preview.SameContentIff` | internal/controlplane/preview.go:148-169 | two bodies compare equal if and only if they agree in every member but the two timestamps |
| `Preview.PlanMeaning` | internal/controlplane/preview.go:75-130 | create for a named key that is not stored, update for one whose bodies differ in a member other than id and timestamps, unchanged for one whose bodies do not, remove for a stored key of a pruned kind that the bundle does not name |
| `Preview.ReplanIsUnchanged` | internal/controlplane/preview.go:52-169 | planning again after apply reports every named resource unchanged and nothing else |
| `Preview.CountsAgree` | internal/controlplane/preview.go:203-219 | the bundle's size per kind is create plus update plus unchanged |
| `Preview.SizeAfterApply` | internal/controlplane/preview.go:203-219 | the size of a kind after apply is its size before plus creates minus deletes |
| `Preview.ApplicableIff` | internal/controlplane/preview.go:84-103 | apply accepts exactly the previewable bundles without an empty id |
| `Preview.EmptyIdIsPreviewedOnly` | internal/controlplane/preview.go:84-103 | a bundle that is planned as a creation and refused by apply |
| `Preview.BuildApplyPlan` | internal/controlplane/preview.go:52-146 | fails exactly on an unparsable body; lists each key that has to be listed once, with that action and its bodies, none forgotten; summaries count them |
| `Validation.SnapshotFromStore` | internal/controlplane/validate.go:109-130 | the snapshot holds exactly the store's resources, decoded |
| `Validation.ReadMeaning` | internal/controlplane/validate.go:132-200 | a decoded resource is named by its key and does not depend on the timestamps of its body |
| `Validation.StageBundle` | internal/controlplane/validate.go:29-74 | the staged snapshot, key by key; fails exactly if a stored or bundled body does not decode |
| `Validation.ValidationCommutes` | internal/controlplane/validate.go:29-74 | the staged snapshot is the snapshot of the store after the same bundle has been applied |
| `SnapshotCheck.SoundIff` | internal/controlplane/validate.go:211-293 | a snapshot is structurally sound exactly if no field is at fault |
| `SnapshotCheck.ValidateSnapshot` | internal/controlplane/validate.go:211-320 | the verdict is soundness whatever the target; the issues are the target's faults, else all faults |
| `SnapshotCheck.ValidateBundle` | internal/controlplane/validate.go:29-74 | the verdict on a bundle is the soundness of the store after applying it |
| `Translate.BuiltIsClosed` | internal/translate/apisix_to_config.go:44-135 | for every snapshot and every order the result is reference-closed from route to service to upstream |
| `Translate.ValidateSeesShapesOnly` | internal/translate/apisix_to_config.go:130-132 | the final Validate can refuse only plugin refs, logging and upstream shapes, never a reference |
| `Translate.ApisixSnapshotToConfig` | internal/translate/apisix_to_config.go:24-135 | succeeds exactly if what was built validates; returns it with the one server "main" at the listen address, the global plugins and the logging |
| `TranslateMeaning.BuiltIsFinished` | internal/translate/apisix_to_config.go:44-135 | for every snapshot, what every order of visits builds, key by key: upstreams, services and routes |
| `TranslateOrder.RouteIsThereIff` | internal/translate/apisix_to_config.go:73-128 | a route is in the result of every order if and only if what it refers to is there before the first route is visited, and in that of some order if and only if it can be there when the route is visited |
| `TranslateOrder.OrderIrrelevantIff` | internal/translate/apisix_to_config.go:44-135 | for every snapshot: the result is the same for every order if and only if no two services store different inline upstreams under one name, no service borrows an inline upstream in a way that shows, and no route refers to what is there only in some orders |
| `TranslateReach.ServiceLeadsIff` | internal/translate/apisix_to_config.go:59-128 | a service leads to an upstream in every order if and only if whatever can be stored last under its upstream id, in one order or another, is that upstream |
| `TranslateReach.RouteReachesIff` | internal/translate/apisix_to_config.go:78-128 | for every snapshot: a route that denotes an upstream is there and leads to it in every order if and only if the service it is given can lead to nothing else |
| `TranslateReach.AlwaysAstray` | internal/translate/apisix_to_config.go:93-107 | a route taken over by a declared service whose upstream no service stores inline goes astray in every order |
| `TranslateReach.OrderDoesNotMatter` | internal/translate/apisix_to_config.go:44-135 | corollary for ids without synthesized prefixes and services that carry their keys (PlainIds): the result is the same for every order |
| `TranslateReach.RouteReachesItsUpstream` | internal/translate/apisix_to_config.go:78-128 | corollary for PlainIds: a route is kept exactly if it translates and denotes an upstream, and it reaches that upstream |
| `TranslateResults.KeptRouteContent` | internal/translate/apisix_to_config.go:137-170 | for every snapshot and order a route of the result has the hosts, methods and plugins of its source, exactly the patterns of its non-empty uris in order, and priority 0 |
| `TranslateResults.UpstreamContent` | internal/translate/apisix_to_config.go:44-57 | every upstream of the result carries over scheme, pass_host, upstream_host, timeout and endpoints of a declared upstream or of a service or route with an inline one under that name; every declared one whose nodes translate and whose scheme is supported is there |
| `TranslateResults.ServiceContent` | internal/translate/apisix_to_config.go:172-205 | for every snapshot and order which services the result has; a declared one that no inline route replaces has its id, its upstream id and its plugins and, unless it borrows, the timeout of the upstream it means; any other is named like its key, with no plugins and the timeout of the upstream behind it |
| `TranslateResults.BuiltShapesIff` | internal/translate/apisix_to_config.go:60-128 | for every snapshot: the upstreams built are well shaped in every order if and only if those inline in services and routes are, and the declared ones that are not overwritten |
| `TranslateResults.TranslationSucceedsIff` | internal/translate/apisix_to_config.go:24-135 | for every snapshot and a listen address: the translation succeeds in every order if and only if logging is fine, plugin refs are named and every declared, service-inline and route-inline upstream that gets into the result is well shaped |
| `TranslateResults.OneOrderDecides` | internal/translate/apisix_to_config.go:24-135 | where the order does not matter this decides the translation in any one order |
| `TranslateExamples.PrefixedServiceMisroutes` | internal/translate/apisix_to_config.go:93-107 | for every order a declared service named like a synthesized one sends this route to another upstream |
| `TranslateExamples.NamelessServiceMisroutes` | internal/translate/apisix_to_config.go:172-187 | a route through one of two services without ids is sent to the upstream of the other in some order |
| `TranslateExamples.NamelessServicesDependOnOrder` | internal/translate/apisix_to_config.go:172-187 | two services without ids give results that depend on the order |
| `TranslateExamples.StrayRouteDependsOnOrder` | internal/translate/apisix_to_config.go:80-107 | so does a route that names the service synthesized for another route |
| `TranslateExamples.LentServiceDependsOnOrder` | internal/translate/apisix_to_config.go:172-205 | so does a service that names the inline upstream of another |
| `Labels.AppendLabel` | internal/observability/observability.go:436-463 | the builder gains exactly the escaped label, or nothing for an empty value |
| `Labels.RenderKey` | internal/observability/observability.go:375-434 | the builder computes the rendered key |
| `Labels.RenderInjective` | internal/observability/observability.go:375-463 | different label values are never rendered to the same key, whatever bytes they contain |
| `Labels.EscapeRoundTrip` | internal/observability/observability.go:450-463 | reading the text format backwards gives back every escaped value |
| `LabelParse.ParseLabelKey` | internal/observability/observability.go:491-508 | computes the split, cut and trim of every part, later parts winning |
| `LabelParse.SplitMeaning` | internal/observability/observability.go:500 | the parts joined by commas are the text, and no part has a comma |
| `LabelParse.CutMeaning` | internal/observability/observability.go:501 | a part is cut at its first equals sign, and left out without one |
| `LabelParse.TrimQuotesMeaning` | internal/observability/observability.go:505 | trimming takes the quotes from both ends, and all of them |
| `LabelParse.ParseRecoversIff` | internal/observability/observability.go:491-508 | parsing recovers exactly the non-empty labels if and only if no value has a comma, quote, backslash or newline |
| `Metrics.KeyInjective` | internal/observability/observability.go:375-434 | within a family a key belongs to one label tuple, with the phase of an upstream duration |
| `Metrics.RenderingTellsApart` | internal/observability/observability.go:375-434 | the keys as the recorder renders them keep the labels of a family apart |
| `Metrics.RenderLabel` | internal/observability/observability.go:375-434 | the builder yields the key that the injectivity results are about |
| `MetricIndex.Observe` | internal/observability/observability.go:330-338 | increments count, sum and the bin of every bound that is not below the value |
| `MetricIndex.HistogramIsExact` | internal/observability/observability.go:305-338 | count, sum and each cumulative bucket equal those of the observations under the key |
| `Recorder.MemoryRecorder.ObserveGateway` | internal/observability/observability.go:144-151 | the log grows by this call and the maps stay the ones the log demands |
| `Recorder.MemoryRecorder.ObservePlugin` | internal/observability/observability.go:153-160 | the same for plugin executions |
| `Recorder.MemoryRecorder.ObserveUpstream` | internal/observability/observability.go:162-176 | the same for upstream requests, with one duration per phase under the name of that phase |
| `Recorder.MemoryRecorder.Reset` | internal/observability/observability.go:293-303 | starts an empty log |
| `Recorder.CountersAgreeWithLog` | internal/observability/observability.go:144-176 | after any run each counter equals the number of calls with exactly its labels |
| `Recorder.HistogramsAgreeWithLog` | internal/observability/observability.go:305-338 | after any run each histogram exists exactly if its labels were observed, and is exact for them |
| `Recorder.RecorderAgreesWithLog` | internal/observability/observability.go:144-176 | so at any time the counter and the histogram that a recorder holds under the rendered key of a label are those of the calls with exactly these labels since the last reset |
| `RouteStats.Summarize` | internal/observability/observability.go:229-257 | every figure equals the count over the observed keys, as the keys read |
| `RouteStats.LabelsReadBack` | internal/observability/observability.go:375-508 | for clean values parsing a rendered key gives back every label of a family under its own name |
| `RouteStats.StatsOf` | internal/observability/observability.go:229-291 | the figures of a recorder are those of everything logged since the last reset, exact for clean labels, with the five busiest routes and no busier one left out |
| `RouteStats.StatsAreExact` | internal/observability/observability.go:229-257 | for clean label values every total, per route and per status class, equals the count over the log |
| `RouteStats.TopRoutes` | internal/observability/observability.go:261-281 | at most five routes in descending order, and none left out has more requests than one shown |

## Left out

- Network I/O, proxying, Hertz contexts, admin HTTP handlers, CLI, logging, bootstrap, dashboards: I/O and presentation.
- etcd clients, watches, key cleaning, JSON and YAML encoding: the stores are maps over abstract JSON values, and a body is either malformed or a value.
- Store and history I/O errors, and the error values that Close returns.
- A service without a history store: saving is then a no-op and rollback an error.
- Kind selections are sets: the order and the repetition of listed kinds are not modelled.
- The order of ids inside one kind of a plan or an apply, which the code sorts.
- Change titles, summaries, warnings and prune-source labels of a plan.
- Unmarshalling of APISIX resources, node lists, timeouts, plugin translation, uri normalization: fixed functions of their input.
- Regular expressions: an arbitrary predicate on pattern and path.
- Text: ASCII only for case folding and trimming of blanks.
- Go's stable sort is an insertion sort with the same comparison.
- 64-bit wrap-around of counters other than route scores and the round-robin ticket.
- Durations and histogram sums are reals; rounding of floating point is not modelled.
- Custom registry, balancer and proxy factories: the registry is a parameter, the balancer is round-robin, the proxy always builds.
- The gateway's own constructor, which drops a compiled snapshot unclosed when the listen address is empty; Validate refuses such options.
- Recorder.MemoryRecorder.ObserveUpstream: the seven phases are a list that is walked, not seven calls; keys are taken from a function that `Metrics.RenderLabel` computes.
- Compile.PickIsConfigured: availability changes after compiling are left to `RoundRobin.Balancer.Pick`.
- Path and header transformer plugins, request ids, template variables and the access log writer: small or file I/O.
