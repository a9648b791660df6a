# Verification model of the bifrost gateway controller

The controller turns a Kubernetes `Gateway` (and the `HTTPRoute`s attached to it) into child
resources. It looks up values from layered policies, renders the templates of a blueprint with
them, fetches and applies the results in a loop, and reports status. Config changes wake the
gateways and routes they concern. This project models those parts of `controllers/` in Dafny and
proves what they promise.

`dafny verify dfyconfig.toml` checks everything.

## The parts

**Layered values.** `Json` is the deep merge on values, with its meaning path by path. `MergeHeap`
is the same merge on mutable map objects, as the code has it, proved to refine the first and to write
map objects of its first argument only. `Policies` has selection, the order within a level and the plan of merges;
`LookupValues` runs a lookup on the heap, loop by loop; `Precedence` says what a lookup means: which
source decides each path, how clashes are settled, what makes no difference.

**Watch index against selection.** `WatchIndex` proves that the mapping from a changed config to
gateways and routes inverts selection, with its exact exceptions. `CurrentValues` has the values that a gateway should
have at any time. `WatchQueue` is the gateway controller and the route controller over time, as one state machine:
policies, gateways and routes change, notices wait to be handled, handled notices put gateways and routes on the work
queues, and reconciles read the policies one level at a time while the cluster goes on changing. Its invariant holds
in every reachable state, and says that whatever is neither pending nor under way is rendered with what a lookup
returns now. `WatchRest` bounds how many steps the controllers take once changes stop, and shows where they end.
`Unwatched` has what they do not notice: a gateway's templates read the hostnames of its routes, and a route's those
of its gateways, and neither controller watches these.

**Render, fetch, apply.** `TemplateGraph` has the loop over sets of template names, with its
fixpoints, the exact number of passes that each template takes, and bounds on the number of reconciles. `Templating`
is the loop on mutable template states and a mutable cluster, for templates that are any function from the values they
may read to resources or failure. `TemplateLoop` connects the two for templates whose reads are known: one pass of the
second is one pass of the first. `TemplateOrder` has what holds for all templates: nothing is undone, and when their
order matters. `GatewayStatus` ends a gateway reconcile: conditions, requeue, errors, and exactly when a gateway
becomes programmed.

**Smaller parts.** `Hostnames` has the hostname lists, `RouteStatuses` the status list of a route.

## Where code and documentation disagree

The model follows the code.

- The comment at `controllers/common.go:108` gives half of the rule for type conflicts. An object
  beats a leaf on either side (`Json.LookMerge`).
- `doc/extended-configuration-w-policy-attachments.md:117-119` calls clashes between policies with the
  same target undefined. The code settles them by age and then name, the oldest winning among
  overrides and the newest among defaults (`Precedence.OverrideLevelDecides`,
  `Precedence.DefaultLevelDecides`).
- The comment at `controllers/gateway_controller.go:240-243` says that N passes are enough for N
  templates. A pass fetches a template only if it existed before the pass, so a template that exists costs
  one pass and one that has to be created costs two, along every path of dependencies. N passes are enough
  exactly if no path costs more than N (`TemplateGraph.OneReconcileIff`, `GatewayStatus.OneReconcileCompletes`).
  They are if every child exists already; from an empty cluster one reconcile halves what is missing, and a
  chain of N takes exactly floor(log2 N) + 1 reconciles to be created (`TemplateLoop.ChainIsExact`) and one
  more to be fetched.
- `main.go:85` allows an empty controller namespace. The lookup then lists class-targeted configs of every
  namespace, but the index still looks in the config's own namespace only
  (`WatchIndex.WakesIffSelected` has the exact condition, `WatchIndex.EmptyControllerNamespaceMisses`
  an instance).
- The route reconcile looks at the kind of a parent reference but not at its group, the index at
  both: a route that refers to a gateway through a foreign group is rendered with a config and not woken by its
  changes (`WatchIndex.ForeignGroupRendersUnwoken`, with the exact condition in `WatchIndex.WokenIsRenderedIff`).
- The route controller does not watch gateways (`controllers/httproute_controller.go:88-94`), though a route's
  templates read the whole gateway object and are those of its class. A gateway that changes in any way, its own
  status included, or is deleted leaves its routes as they were, and the controllers come to rest
  (`Unwatched.GatewayChangeUnnoticed`, `Unwatched.GatewayDeletionUnnoticed`; the exact conditions are in
  `Unwatched.PutGatewayUnnoticedIff` and `Unwatched.DropGatewayUnnoticedIff`).
- The gateway controller does not watch routes (`controllers/gateway_controller.go:99-105`), though a gateway's
  templates read the hostnames of its routes (`Unwatched.RouteChangeUnnoticed`; the exact conditions are in
  `Unwatched.PutRouteUnnoticedIff` and `Unwatched.DropRouteUnnoticedIff`). The periodic resynchronisation
  makes up for all of these (`Unwatched.ResyncRepairs`).
- A template that renders to no resources lets a reconcile end without error and without a requeue while
  the gateway is not programmed (`GatewayStatus.DoneUnprogrammed`, with the exact condition in
  `GatewayStatus.DoneIsProgrammedIff` and `GatewayStatus.DoneIsProgrammedIffKeys`).
- The list that other templates read does not always grow at its end (`TemplateOrder.GrowthIsNotPrefix`, with
  the exact condition, on the cluster in which the template renders, in `TemplateOrder.GrowsAtEndIffCreatedLast`).
- Templates are sorted "to increase predictability" (`controllers/templating.go:146`). Their order can change the
  outcome only if two of them apply the same resource with different content (`TemplateOrder.OrderMattersIff`).
- A wildcard covers its bare apex at `controllers/gateway_controller.go:466`, which the Gateway API
  `Hostname` type does not say.

## Model

| member | source | states |
|---|---|---|
| Json.LookMerge | controllers/common.go:110-128 | at every path separately: an object beats a leaf on either side, else the second document's leaf wins, else the first's stays |
| Json.Extensional | controllers/common.go:110-128 | documents that read the same at every path are the same, so the path-wise meaning is the whole meaning |
| Json.MergeAssociative | controllers/common.go:110-128 | merging is associative |
| Json.MergeIdempotent | controllers/common.go:110-128 | merging a document into itself changes nothing |
| Json.MergeAbsorbsEarlierCopy | controllers/common.go:110-128 | a source merged again later contributes nothing the first time |
| Json.FoldReads | controllers/common.go:290-328 | a sequence of merges holds an object at a path iff some source does, nothing iff none has the path, otherwise the leaf of the last source that has it |
| Json.ReadsUnique | controllers/common.go:290-328 | that description determines the value at the path |
| Json.FoldKeepLast | controllers/common.go:290-328 | any sequence of merges equals the one with only the last occurrence of each repeated source |
| Json.KeepLastDistinct | controllers/common.go:290-328 | the shortened sequence has the same sources, each exactly once |
| Json.FoldIsMap | controllers/common.go:162-165 | the result is always an object, so the error branch for a merge that gives none is never taken |
| MergeHeap.MergeInPlace | controllers/common.go:110-128 | on trees with disjoint footprints the in-place merge writes map objects of `a` only and leaves the merged tree reachable from its result |
| MergeHeap.MergeEntries | controllers/common.go:117-123 | the loop over the entries of `b`, in any order, leaves every entry merged |
| MergeHeap.MergeShapeNodes | controllers/common.go:110-128 | the merged tree lies within the two footprints |
| MergeHeap.MergeShapeTree | controllers/common.go:110-128 | the merged tree is again a tree: no map object is shared between two places |
| MergeHeap.MergeShapeAbs | controllers/common.go:110-128 | the tree left on the heap represents the pure merge of the two documents |
| MergeHeap.Decode | controllers/common.go:155-161 | decoding builds a tree of new map objects that represents the document |
| Policies.Select | controllers/common.go:218-282 | a group has exactly the listed policies that meet the level's condition |
| Policies.OlderTotalOrder | controllers/common.go:195-216 | creation time, then namespace/name, is a strict total order on policies with different names |
| Policies.OlderInNamespace | controllers/common.go:195-206 | within one namespace, where every group but the global one comes from, that is by age, and by name within one age |
| Policies.StringLessIsLexicographic | controllers/common.go:203-204 | names compare as in a dictionary: proper prefix, or smaller where they first differ |
| Policies.SortOldestFirst | controllers/common.go:197-206 | a sorted group is a permutation of the group, oldest first and by name within one age |
| Policies.AscendingUnique | controllers/common.go:195-216 | there is only one such order of a set of policies |
| Policies.SortedGroupUnique | controllers/common.go:197-228 | the sorted group depends on which policies match, not on the order or the list they came in |
| Policies.HierarchyIs | controllers/common.go:254-286 | class configs in the order global, namespace, local class, then gateway configs in the order namespace, gateway |
| Policies.RunIsFold | controllers/common.go:155-168 | a lookup succeeds iff every source can be decoded, and then is the fold of the decoded documents |
| Policies.RunFailsAtFirst | controllers/common.go:290-328 | a failed lookup names the first source that cannot be decoded |
| Precedence.LookupReads | controllers/common.go:290-328 | what a lookup returns at each path, read off the sources in the order blueprint default, defaults forward, overrides in reverse, blueprint override |
| Precedence.FirstOverrideDecides | controllers/common.go:309-323 | of all overrides of a leaf the first in the hierarchy decides |
| Precedence.LastDefaultDecides | controllers/common.go:290-307 | with no override the last default in the hierarchy decides |
| Precedence.OverrideLevelDecides | controllers/common.go:309-323 | the least specific level with an override decides whatever clashes there, and within it the oldest policy, then the alphabetically first |
| Precedence.DefaultLevelDecides | controllers/common.go:290-307 | with no override the most specific level with a default decides, and within it the newest policy, then the alphabetically last |
| Precedence.GroupMember | controllers/common.go:218-282 | which policies stand at a level, in the fields of their target references: kind, group, name and namespace |
| Precedence.LeastSpecificOverrideDecides | controllers/common.go:254-323 | of all policies with an override at a path, the decider is one that targets the least specific of class everywhere, namespace by class config, class, namespace, the gateway itself; within these the oldest, then the alphabetically first |
| Precedence.MostSpecificDefaultDecides | controllers/common.go:254-307 | with no override, the decider is one that targets the most specific of these; within them the newest, then the alphabetically last |
| Precedence.LookupIgnoresListOrder | controllers/common.go:170-286 | the result is the same for any order in which the API lists the objects |
| Precedence.PlanLayered | controllers/common.go:290-328 | the order of precedence at a path: blueprint default, defaults, overrides, blueprint override |
| Precedence.RepeatedGroupAt | controllers/common.go:254-257 | a group selected at two levels counts at the later one for defaults and at the earlier one for overrides |
| Precedence.ControllerNamespaceCountsOnce | controllers/common.go:170-252 | for a gateway in the controller namespace, class-targeted configs count once: default at the local class level, override at the global level |
| Precedence.PlanDecodable | controllers/common.go:290-328 | a lookup can only fail on a blueprint or a selected policy whose values do not decode |
| LookupValues.SelectGroup | controllers/common.go:218-228 | the selection loop and sort give the group of the level |
| LookupValues.Filter | controllers/common.go:218-286 | the five groups, appended per kind, make up the hierarchy |
| LookupValues.MergeValues | controllers/common.go:155-168 | decodes and merges one source; fails iff it cannot be decoded, leaves the tree alone if there is none |
| LookupValues.MergeDefaults | controllers/common.go:296-307 | the forward loops follow the plan, and stop at a source that cannot be decoded |
| LookupValues.MergeOverrides | controllers/common.go:311-323 | the reverse loops follow the plan, and stop at a source that cannot be decoded |
| LookupValues.Lookup | controllers/common.go:144-332 | returns the result of the plan over the hierarchy, or its error, in map objects that are all new; writes nothing that existed before, so no policy is modified |
| WatchIndex.GatewaysForConfig | controllers/gateway_controller.go:107-149 | enqueues the keys of the listed gateways that the config targets, in order |
| WatchIndex.WokenMember | controllers/gateway_controller.go:132-148 | a key is enqueued iff it names a gateway that the config wakes |
| WatchIndex.WokenInOrder | controllers/gateway_controller.go:132-148 | keys are enqueued in the order of the listed gateways, once for each of them |
| WatchIndex.WakesIffSelected | controllers/gateway_controller.go:107-149 | a config wakes a gateway iff a lookup for the gateway selects it, unless the controller namespace is empty and a class-targeted config for its class stands in another namespace; exactly then it fails, by missing the gateway |
| WatchIndex.EmptyControllerNamespaceMisses | main.go:85 | a config that a lookup selects and the index misses |
| WatchIndex.FilterRoutes | controllers/gateway_controller.go:479-500 | one entry per reference that passes the filter, in order |
| WatchIndex.AttachedMember | controllers/gateway_controller.go:479-500 | a route is returned iff some reference of it refers to the gateway |
| WatchIndex.RoutesForConfig | controllers/httproute_controller.go:96-118 | each route attached to a woken gateway, once, and no other |
| WatchIndex.RouteWokenIffSelected | controllers/gateway_controller.go:479-500 | a config wakes a route exactly through the gateways that a reference of the route resolves to, with kind and group right or unset, and that select the config and are not missed |
| WatchIndex.AttachedIsRenderedIff | controllers/httproute_controller.go:215-264 | the index attaches a route to exactly the gateways that its reconcile looks up iff the references that the index accepts and those that the reconcile follows resolve to the same gateways |
| WatchIndex.UnsetKindEnds | controllers/httproute_controller.go:215-218 | a reference with an unset kind ends the reconcile: the route is rendered for what the references before it lead to, and nothing else |
| WatchIndex.FitsIffInGroup | controllers/httproute_controller.go:216-225 | with every kind set, that is: iff every gateway referred to is also referred to within the Gateway API group, or without a group |
| WatchIndex.WokenIsRenderedIff | controllers/httproute_controller.go:96-118 | for every config and cluster exactly the routes are woken that are rendered with the config, iff the references fit |
| WatchIndex.ForeignGroupRendersUnwoken | controllers/httproute_controller.go:216-225 | a config, a gateway that selects it and a route rendered for that gateway, such that the config does not wake the route |
| CurrentValues.ValuesNowIsLookup | controllers/common.go:144-332 | the values that count now are what a lookup over any answers of the API returns |
| CurrentValues.UnwokenValues | controllers/gateway_controller.go:107-149 | a change of a config that wakes the gateway neither before nor after leaves its values as they were |
| WatchQueue.PolicyChangeKeeps | controllers/gateway_controller.go:102-103 | creating, changing or deleting a config keeps the invariant for gateways and routes, because its old and new form are both mapped |
| WatchQueue.ObjectChangeKeeps | controllers/gateway_controller.go:101 | creating, changing or deleting a gateway or route keeps the invariant: its own notice is pending, and what else sees the change is accounted for |
| WatchQueue.DeliverKeeps | controllers/httproute_controller.go:96-118 | handling a notice queues every gateway and every indexed route that it stood for |
| WatchQueue.BeginKeeps | controllers/gateway_controller.go:151-201 | taking a gateway or route off its queue and looking up what it needs keeps the invariant, also when it is gone or not managed |
| WatchQueue.ResyncKeeps | main.go:84 | resynchronising a gateway or route at any time keeps the invariant |
| WatchQueue.ReadKeeps | controllers/common.go:170-186 | reading one level for one gateway keeps the invariant, whatever changed since the levels before it were read |
| WatchQueue.FinishKeeps | controllers/gateway_controller.go:211-356 | finishing a reconcile keeps the invariant, whether or not it came to render, whether or not its key comes back at once or later, and whether or not it wrote a changed status, which is a change of the object |
| WatchQueue.StepKeeps | controllers/gateway_controller.go:99-149 | every step of the protocol keeps the invariant, whatever other gateways and routes there are |
| WatchQueue.RunKeeps | controllers/gateway_controller.go:99-149 | so does every run |
| WatchQueue.RenderedIsCurrent | controllers/gateway_controller.go:211-225 | in every reachable state a live managed gateway that nothing pending covers and that is not being worked on was last rendered with the gateway as it is and exactly what a lookup returns now |
| WatchQueue.UntouchedIsCurrent | controllers/httproute_controller.go:215-306 | in every reachable state a live gateway or indexed route that nothing pending covers, that is not being worked on, and that no unnoticed change concerns was last rendered with everything that a reconcile would look up now: hostnames for a gateway, the route, its managed gateways and their values for a route |
| WatchQueue.IndexedIff | controllers/httproute_controller.go:215-264 | a route is indexed iff for each reference that its reconcile follows the index accepts one to the same gateway |
| WatchQueue.NowIsLookup | controllers/httproute_controller.go:264 | the values of now are what a lookup over any answers of the API returns |
| WatchRest.InternalStepsEnd | controllers/gateway_controller.go:151-356 | every step of the controllers reduces the work left, except that a reconcile that fails, comes back or writes a status may add what one notice and one key cost |
| WatchRest.RunIsBounded | controllers/gateway_controller.go:336-355 | once changes stop, a run has at most as many steps as there is work at its start, and a fixed number more for each such reconcile |
| WatchRest.BlockedIff | controllers/gateway_controller.go:211-215 | a step that adds no work is left iff there is a notice, a key that can begin, a level to read or a reconcile that can render |
| WatchRest.NeverStuck | controllers/gateway_controller.go:151-215 | if blueprints and policies decode, such a step is left iff the controllers are not at rest |
| WatchRest.ComesToRest | controllers/gateway_controller.go:151-356 | from any such state, steps that add no work lead to rest, no more of them than there is work |
| WatchRest.EndsAtRest | controllers/gateway_controller.go:151-356 | after any steps of the controllers, no step that adds no work is left iff they have come to rest |
| WatchRest.RestIsCurrent | controllers/gateway_controller.go:211-225 | so at rest every live managed gateway is rendered with exactly what a lookup returns |
| WatchRest.QueuedBegins | controllers/gateway_controller.go:151-156 | in any run, what is queued begins before it leaves the queue |
| WatchRest.NoticedBegins | controllers/gateway_controller.go:99-105 | in any run that ends at rest, what there is a notice of begins |
| WatchRest.ComesBack | controllers/gateway_controller.go:343-352 | in any run that ends at rest, a reconcile that has something left to do, fails, cannot look up its values or writes a status is followed by another one of the same gateway or route |
| WatchRest.ChangeBegins | controllers/httproute_controller.go:88-94 | in any run that ends at rest, a change of a gateway or route is followed by a reconcile of it |
| WatchRest.ResyncBegins | main.go:84 | in any run that ends at rest, a resynchronisation is followed by a reconcile of its gateway or route |
| WatchRest.NotManagedIsLeftAlone | controllers/httproute_controller.go:186-189 | in any run, nothing is begun or rendered for a route that is not there, or for a gateway that is not there or whose class has no blueprint, until it is put |
| WatchRest.LastChangeStands | controllers/gateway_controller.go:99-105 | in any run, the cluster ends up with what the last change of a config, gateway or route made of it; reconciles write nothing but the content of gateways and routes |
| WatchRest.PolicyStirsIff | controllers/gateway_controller.go:99-105 | a config applied while the controllers are at rest leaves them so iff it has the spec that it had |
| WatchRest.EnqueuesGatewaysIff | controllers/gateway_controller.go:107-149 | a handled notice queues exactly the gateways that the index returns for the config before the change or after it |
| WatchRest.EnqueuesRoutesIff | controllers/httproute_controller.go:96-118 | and exactly the routes |
| Unwatched.UnnoticedIff | controllers/httproute_controller.go:88-94 | when a gateway or route changes and nothing pending will come to another: whatever the controllers do, the other stays rendered as it should be iff the change does not show in what its reconcile would look up |
| Unwatched.RestIgnores | controllers/gateway_controller.go:99-105 | with the controllers at rest, the change of a gateway leaves nothing pending for a route, and that of a route nothing for a gateway |
| Unwatched.RestAgain | controllers/gateway_controller.go:99-105 | after the change they come to rest again |
| Unwatched.RouteViewIff | controllers/httproute_controller.go:215-277 | any change of gateways shows in a route iff one of the gateways that it refers to is or was managed and is not as before |
| Unwatched.PutGatewayUnnoticedIff | controllers/httproute_controller.go:225-277 | the route stays as it should be iff the gateway put is none of its, or managed neither before nor after, or as before |
| Unwatched.DropGatewayUnnoticedIff | controllers/httproute_controller.go:225-230 | the route stays as it should be iff the gateway deleted is none of its, or not managed |
| Unwatched.RouteShowsIff | controllers/gateway_controller.go:195-201 | a change of a route shows in a gateway unless each hostname that the route brings before or after, but not both, is brought by another route as well |
| Unwatched.PutRouteUnnoticedIff | controllers/gateway_controller.go:195-225 | exactly then the gateway stays as it should be when the route is put |
| Unwatched.DropRouteUnnoticedIff | controllers/gateway_controller.go:195-225 | and when it is deleted, iff each hostname that it brought is brought by another route as well |
| Unwatched.FirstReconcile | controllers/httproute_controller.go:313-328 | a new gateway or route is reconciled, gets its status written, is reconciled again, and all comes to rest with it rendered as it should be |
| Unwatched.GatewayChangeUnnoticed | controllers/httproute_controller.go:88-94 | for every indexed route, its gateway, and any change of the gateway that is managed before or after: a reachable state at rest in which the route is not rendered as it should be |
| Unwatched.GatewayDeletionUnnoticed | controllers/httproute_controller.go:88-94 | so when a managed gateway is deleted |
| Unwatched.RouteChangeUnnoticed | controllers/gateway_controller.go:99-105 | for every managed gateway and any change of the hostnames that a route brings it: a reachable state at rest in which the gateway is not rendered as it should be |
| Unwatched.UnnoticedExample | controllers/gateway_controller.go:99-105 | such a gateway, route and changes |
| Unwatched.ResyncRepairs | main.go:84 | a resynchronisation makes up for whatever went unnoticed: at rest after it, the gateway or route is rendered with all that it should be |
| TemplateGraph.TierFixpoint | controllers/gateway_controller.go:240-243 | N rounds of rendering reach a fixpoint, for any dependencies among N templates |
| TemplateGraph.LeastFixpoint | controllers/gateway_controller.go:240-243 | and it is the least one |
| TemplateGraph.LeftOverIff | controllers/gateway_controller.go:240-243 | the templates left over are exactly those from which dependencies lead to a cycle or an unknown name |
| TemplateGraph.AcyclicIsComplete | controllers/gateway_controller.go:240-243 | without cycles and unknown names none is left over |
| TemplateGraph.PassesMonotone | controllers/gateway_controller.go:244-257 | passes lose nothing, and a better start gives a better outcome |
| TemplateGraph.PassesBounded | controllers/templating.go:170-209 | only the least fixpoint is ever rendered, and only what is rendered is fetched |
| TemplateGraph.PassesExisting | controllers/templating.go:240-277 | a reconcile adds to the cluster exactly what it renders |
| TemplateGraph.PassesWhenAllExist | controllers/gateway_controller.go:244-257 | if everything exists that can, n passes render and fetch exactly n tiers |
| TemplateGraph.ReconcileWhenAllExist | controllers/gateway_controller.go:240-257 | if everything exists that can, one reconcile reaches the least fixpoint, and everything for an acyclic graph |
| TemplateGraph.FetchedIff | controllers/templating.go:188-208 | a template is fetched one pass after all it reads from if it exists at the start of the reconcile, and two passes after if not |
| TemplateGraph.FetchedIffAffordable | controllers/gateway_controller.go:244-257 | after n passes exactly the templates are fetched from which every path of dependencies stays among the templates and costs at most n, for any graph and whatever exists |
| TemplateGraph.OneReconcileIff | controllers/gateway_controller.go:240-243 | one reconcile of N templates fetches all of them iff every path of dependencies stays among the templates and costs at most N |
| TemplateGraph.PassesFromTier | controllers/gateway_controller.go:244-257 | what is rendered, fetched and existing after any number of passes that started with the first d tiers existing |
| TemplateGraph.ReconcileFromTier | controllers/gateway_controller.go:244-257 | starting with d of N tiers, a reconcile leaves exactly floor((N-d)/2) tiers uncreated |
| TemplateGraph.HalvedVanishes | controllers/gateway_controller.go:240-257 | N is halved to nothing by exactly the counts above floor(log2 N) |
| TemplateGraph.ExistingFromEmpty | controllers/gateway_controller.go:244-257 | what exists after k reconciles of an empty cluster, for any graph |
| TemplateGraph.LogReconcilesSuffice | controllers/gateway_controller.go:240-257 | whatever exists at the start, floor(log2 N) + 1 reconciles create all that can be created and the next fetches it |
| TemplateGraph.ChainNeedsLogReconciles | controllers/gateway_controller.go:240-257 | for a chain that bound is exact |
| TemplateGraph.ChainFetchesOneLater | controllers/gateway_controller.go:240-257 | a chain is fetched by a reconcile iff it was all there before |
| Templating.BuildResourceValues | controllers/templating.go:216-229 | the fetched objects of each template in order, by template name |
| Templating.FetchResources | controllers/templating.go:188-208 | fetches what exists and was not fetched, keeps what was, and counts what is fetched now |
| Templating.RenderTemplate | controllers/templating.go:170-209 | one template, whatever function of the values it is: renders it unless it has resources, records whether it failed, fetches its resources |
| Templating.RenderTemplates | controllers/templating.go:163-211 | every template against the values from before the pass; counts the rendered and the fetched resources |
| Templating.Cluster.Patch | controllers/common.go:369-399 | creates a missing object, overwrites what was applied of an existing one, fails on a rejected one |
| Templating.ApplyTemplate | controllers/templating.go:240-277 | applies every resource in order although others fail, and records whether one was rejected |
| Templating.ApplyTemplates | controllers/templating.go:233-283 | applies every template although others fail; reports an error iff some template has one |
| Templating.RunPass | controllers/gateway_controller.go:245-257 | one attempt of the loop, and its counters |
| Templating.RunLoop | controllers/gateway_controller.go:244-257 | as many passes as templates; the counters are those of what the templates hold at the end, also with no templates |
| Templating.RunRouteLoop | controllers/httproute_controller.go:288-306 | the same passes, ended by the first that has an apply error |
| Templating.ApplyKeepsCounts | controllers/templating.go:233-283 | the apply stage leaves both counters valid |
| TemplateLoop.RendersIff | controllers/templating.go:163-186 | a template that fails as long as something it reads is missing renders iff every template it reads from is completely fetched, or has no resources |
| TemplateLoop.PassAt | controllers/templating.go:170-209 | what a pass does to one template: when it renders, is fetched and exists, also if its resources are rejected or it has none |
| TemplateLoop.PassRefines | controllers/gateway_controller.go:245-257 | a pass over template states and cluster is a pass over sets of names, in which a template that is rejected or has no resources reads from itself |
| TemplateLoop.LoopRefines | controllers/gateway_controller.go:244-257 | so are any number of passes |
| TemplateLoop.ReconcileRefines | controllers/gateway_controller.go:244-257 | so is a reconcile, starting from templates parsed anew |
| TemplateLoop.ReconcilesRefine | controllers/gateway_controller.go:244-257 | so are reconciles in a row over a cluster that stays |
| TemplateLoop.FetchedIffAffordable | controllers/gateway_controller.go:240-257 | what one reconcile fetches: exactly the templates whose every path of dependencies ends and costs at most N |
| TemplateLoop.OneReconcileSuffices | controllers/gateway_controller.go:240-257 | if every child exists that can, one reconcile fetches a template iff it is not stuck, that is, iff dependencies lead from it to no cycle, no unknown name and no template that is rejected or has no resources |
| TemplateLoop.LogReconcilesCreate | controllers/gateway_controller.go:240-257 | floor(log2 N) + 1 reconciles create every child that is not stuck |
| TemplateLoop.LogReconcilesFetch | controllers/gateway_controller.go:240-257 | the next reconcile fetches exactly the templates that are not stuck |
| TemplateLoop.ChainIsExact | controllers/gateway_controller.go:240-257 | templates in a line, none of them created, are all created by k reconciles iff k > floor(log2 N) |
| TemplateOrder.LoopUndoesNothing | controllers/templating.go:170-229 | within a reconcile a rendered template is not rendered again, a fetched object stays as fetched, and the list that others read grows as a subsequence |
| TemplateOrder.GrowsAtEndIff | controllers/templating.go:216-229 | for different objects, that list grows at its end only iff no resource fetched later stands before one fetched earlier |
| TemplateOrder.GrowsAtEndIffCreatedLast | controllers/templating.go:170-229 | from the pass that renders a template to the next, for different objects, the list grows at its end only iff no resource that does not exist yet and is not rejected stands before one that exists |
| TemplateOrder.FetchedForGood | controllers/templating.go:188-208 | from then on the list does not change in the reconcile |
| TemplateOrder.GrowthIsNotPrefix | controllers/templating.go:216-229 | a reconcile of two templates in which it does not, from its first pass to its second |
| TemplateOrder.AppliedContent | controllers/templating.go:240-277 | of several applies of one resource the content of the last stays, and a rejected resource stays as it was |
| TemplateOrder.OrderMattersIff | controllers/templating.go:146-147 | applying the templates leaves the same cluster in every order iff templates that apply the same resource leave the same content |
| TemplateOrder.PassIgnoresOrder | controllers/templating.go:146-147 | a pass does the same to each template in any order, and to the cluster too if the rendered templates agree |
| TemplateOrder.LoopIgnoresOrder | controllers/templating.go:146-147 | if no resource belongs to two templates, whole loops come out the same in any order of the templates |
| GatewayStatus.StatusExistingTemplates | controllers/statuscheck.go:62-77 | the report of missing resources, in order |
| GatewayStatus.AllMissingMember | controllers/statuscheck.go:62-77 | it names templates without resources and resources without objects, and nothing else |
| GatewayStatus.NothingMissingIff | controllers/statuscheck.go:62-77 | it is empty iff every template has resources and all are fetched |
| GatewayStatus.StatusIsReady | controllers/statuscheck.go:43-59 | ready iff every resource is fetched and current; an error iff the first that is not cannot be judged |
| GatewayStatus.CollectErrors | controllers/gateway_controller.go:258-263 | an error iff some template has a render or apply error |
| GatewayStatus.CountsCompare | controllers/gateway_controller.go:265 | the counters agree iff every rendered resource is fetched |
| GatewayStatus.StatusIsOk | controllers/gateway_controller.go:270-279 | the status template sees the objects fetched by the end of the loop; a blueprint without one is fine |
| GatewayStatus.Conclude | controllers/gateway_controller.go:258-356 | Programmed iff every template has resources, all are fetched and there is no error; Ready iff Programmed, all current and the status template satisfied; failed, requeued or done exactly when |
| GatewayStatus.ReconcileTemplates | controllers/gateway_controller.go:244-356 | the same from the start of the loop: done implies no render error, no error of the last apply, every rendered resource fetched and any status template satisfied |
| GatewayStatus.ReadyFromStart | controllers/statuscheck.go:43-59 | after the loop all children count as healthy iff each existed, healthy, before the reconcile: none that it had to create, and none in progress |
| GatewayStatus.UnjudgeableFromStart | controllers/statuscheck.go:43-59 | the readiness check fails iff it comes to a child that existed before the reconcile and could not be judged then, with all children before it healthy |
| GatewayStatus.DoneIsProgrammedIff | controllers/gateway_controller.go:371-396 | a reconcile that ends without error and with nothing left to fetch leaves the gateway programmed iff in its last pass no template stood there that renders to nothing |
| GatewayStatus.DoneIsProgrammedIffKeys | controllers/gateway_controller.go:371-396 | for templates with known reads, that is: iff each has a resource to render to |
| GatewayStatus.DoneUnprogrammed | controllers/gateway_controller.go:265 | a reconcile that ends so and does not leave the gateway programmed |
| GatewayStatus.OneReconcileCompletes | controllers/gateway_controller.go:240-334 | one reconcile of N templates leaves the gateway programmed iff nothing is rejected and every path of dependencies ends and costs at most N |
| GatewayStatus.LogReconcilesComplete | controllers/gateway_controller.go:240-334 | after floor(log2 N) + 1 reconciles the next leaves the gateway programmed iff no template is stuck and nothing is rejected, whatever exists at the start |
| GatewayStatus.PassFailsIff | controllers/httproute_controller.go:302-305 | a pass ends with an apply error iff some template has rendered to a rejected resource by then |
| GatewayStatus.RouteLoopStops | controllers/httproute_controller.go:293-306 | the loop of the route reconcile stops after the first pass by which a rejected resource is rendered, or after as many passes as templates |
| GatewayStatus.RouteLoopFetches | controllers/httproute_controller.go:293-308 | with nothing rejected it makes all its passes and fetches exactly the templates whose every path of dependencies ends and costs at most N |
| GatewayStatus.CompleteCountsAgree | controllers/gateway_controller.go:371-381 | Programmed implies that the counters agree |
| GatewayStatus.LoopErrorsMean | controllers/templating.go:172-184 | after the loop a render error stands for a template without resources that failed in the last pass, and an apply error for a resource rejected in it |
| Hostnames.AddHostname | controllers/gateway_controller.go:435-444 | puts a hostname where it belongs: wildcards by domain, plain names as they are |
| Hostnames.Collect | controllers/gateway_controller.go:446-455 | both sets hold exactly the hostnames of listeners and routes |
| Hostnames.InputsMember | controllers/gateway_controller.go:446-455 | the hostnames looked at are those of listeners that have one, and those of routes |
| Hostnames.IsCovered | controllers/gateway_controller.go:464-470 | true iff some wildcard covers the name, at or below its apex |
| Hostnames.CombineHostnames | controllers/gateway_controller.go:430-476 | the union is the inputs without duplicates, the intersection those that no wildcard makes superfluous, for any order of the sets |
| Hostnames.CoversIff | controllers/gateway_controller.go:464-470 | a wildcard covers a name iff the name is its domain or ends in a dot and its domain; that is, iff the labels of the domain are the last labels of the name |
| Hostnames.LeftOutIff | controllers/gateway_controller.go:462-474 | a plain name among the inputs is missing from the intersection iff its last labels are those of the domain of a wildcard among them |
| Hostnames.WildcardsStay | controllers/gateway_controller.go:457-460 | every wildcard stays in the intersection |
| Hostnames.IntersectionServesTheSame | controllers/gateway_controller.go:423-429 | both lists match exactly the same names |
| Hostnames.IntersectionIsIrredundant | controllers/gateway_controller.go:462-474 | no plain name of the intersection is matched by another entry of it |
| Hostnames.CombineIsIdempotent | controllers/gateway_controller.go:430-476 | combining the intersection again returns it as both lists |
| Hostnames.CombinedUnique | controllers/gateway_controller.go:457-475 | the lists are determined up to order |
| RouteStatuses.ParentRefCmpIsEquality | controllers/httproute_controller.go:120-139 | references compare equal iff they agree in every field, set or unset |
| RouteStatuses.RouteStatus.FindParent | controllers/httproute_controller.go:149-158 | the first own entry for the reference, or none if there is none |
| RouteStatuses.RouteStatus.SetRouteStatusCondition | controllers/httproute_controller.go:160-178 | updates that entry in place or appends one; a condition without a time gets the present one |
| RouteStatuses.SetParentLocal | controllers/httproute_controller.go:160-178 | entries of other controllers and of other references keep their content and order |
| RouteStatuses.SetParentOwn | controllers/httproute_controller.go:160-178 | exactly one own entry for the reference is left, with the condition set |
| RouteStatuses.RunKeeps | controllers/httproute_controller.go:160-178 | over any calls own references stay distinct and other controllers' entries keep content and order |
| RouteStatuses.RunByReference | controllers/httproute_controller.go:160-178 | what a reference ends up with depends on its own calls only: one entry if there was any call, otherwise what it had |
| RouteStatuses.SetConditionLast | controllers/httproute_controller.go:177 | the status last set for a kind stays, conditions of other kinds are untouched |
| RouteStatuses.SetConditionReplaces | controllers/httproute_controller.go:177 | the condition of a kind is replaced by the one set, and keeps its time if its status is the same; one of a new kind is added |
| RouteStatuses.SetTwice | controllers/httproute_controller.go:177 | the same condition set again, at any time, changes nothing |
| RouteStatuses.RunKeepsKinds | controllers/httproute_controller.go:160-178 | over any calls, no own entry gets two conditions of one kind |

## Left out

- Kubernetes clients, caches, REST mapping, server-side apply and owner references: the cluster is a
  map from keys to objects, applying creates an object or overwrites what was
  applied of it before, and `rejects` stands for every way in
  which setting an owner or applying can fail.
- Go templates, Sprig, YAML and JSON decoding, REST mapping: a source has no values, is malformed or is a
  document; a template is any function from the values it may read to resources, or failure.
- Behaves: the results of `TemplateLoop`, and those of `GatewayStatus` that count reconciles, are about templates that
  fail as long as a resource they read is missing, and always render to the same resources. A template that ranges
  over a list that is still empty can render early and keep what it rendered, and one may read a field that a fetched
  object does not have yet; `Templating`, `TemplateOrder` and the rest of `GatewayStatus` cover those too.
- Arrays and null are leaves of a document, since the merge never looks into them.
- kstatus and `meta.SetStatusCondition` are library code: an object is healthy, progressing or cannot
  be judged; setting a condition is `SetCondition`, which `RouteStatuses.SetConditionReplaces` describes.
- The source's stable library sort is a function here: on objects with distinct names the sorted order is
  unique, so nothing depends on the algorithm.
- Strings compare by their elements; the source compares bytes of UTF-8, which is the same order on
  code points.
- Policies are values, as is the document inside each. That a lookup modifies none of them is `Lookup`
  having no `modifies` clause: it may write only objects it creates.
- `WatchQueue` treats each list call as one step that succeeds and sees the cluster as it is; a call that fails
  inside a reconcile is a failed reconcile. Informer caches that lag behind are not modelled, and neither is
  the source's giving up when the list call of the index itself fails.
- Changes of blueprints and classes are not watched by the source, only covered by its periodic
  resynchronisation, so they are fixed in `WatchQueue`.
- A gateway or route that is being deleted is skipped by the source; deletion is one step here.
- ComesToRest: whether a reconcile has something left to do or writes a status is not decided by the model, as it
  depends on the children of the gateway; the run shown is one in which none does.
- WokenIsRenderedIff: requires a controller namespace; `RouteWokenIffSelected` does not.
- RendersFor: the source dereferences the kind of a parent reference unguarded, so the reconcile of a route with an
  unset kind gets no further than that reference (`WatchIndex.UnsetKindEnds`); the API server sets a default.
- PassRefines: requires, besides what `Behaves` says, that a template reads all resources of another or none, and that no
  resource belongs to two templates, which would have to overwrite one another. Names of templates are keys of a map in
  the source, and so are unique. The same holds of the other members of `TemplateLoop`, `ReconcileCompletes`,
  `OneReconcileCompletes`, `LogReconcilesComplete`, `DoneIsProgrammedIffKeys` and `RouteLoopFetches`.
- Begin: a reconcile looks up the gateways of its route, or the routes of its gateway, when it begins, not one by one.
- UntouchedIsCurrent: requires of the one route in question that it is indexed; `IndexedIff` says when, and
  `WatchIndex.WokenIsRenderedIff` that it cannot be done without.
- UnnoticedIff: the steps that follow are those in which no reconcile fails, comes back or writes a status; a status
  written is itself a change of the object.
- Conclude: address decoding is a boolean of the fetched objects, and the rendered status document is
  taken to be non-empty, since the source indexes it unguarded; condition messages and reasons are left out.
- RoutesForConfig: a gateway's listeners, section names and ports play no role, as in the source.
- The listener status loop (`controllers/gateway_controller.go:282-304`) builds a value that is never stored.
- `gatewayclass_controller.go`, metrics, logging, `main.go`, generated code, charts and blueprints: plumbing or data.
