# Verification model of the vlanman operator

The operator gives pods addresses on VLAN networks and keeps one DaemonSet of VLAN managers per
network. This project models its three state-changing cores in Dafny and proves what they are for.

**Addresses.** The admission webhook reserves an address by stamping it in the status of the
network; the reconciler rebuilds the free lists and drops stamps whose pod it can see or that
lapsed after 35 seconds. `Ipam` states both as transforms of a status, `IpamFacts` what holds of
them, `StatusObject`, `Webhook` and `ApiServer` are the operator's objects and loops, proved to
compute those transforms whatever order a Go map is walked in. `Protocol` puts the transforms into
a step system with any number of concurrent writers, pods, a lagging view and a clock.
`ProtocolBase` has the part of its invariant that holds in every run, `ProtocolInvariant` the part
that needs pods to show up in time. `ProtocolTheorems` and `ProtocolBound` prove that no two pods
share an address, exactly when, and what becomes of stamps in any run. `Refinement` ties the two
levels together: what an admission or a pass commits on the server is what the protocol's step
commits, with the time, the pods and the clock that it was given.

**Managers.** `ManagerCodec` writes a manager into a DaemonSet and reads it back, `StateDiff`
compares what is wanted with what runs by sorting and binary search, `DiffFacts` proves that this
is the plain set difference, `Convergence` carries the actions out, and `Reconciler` follows whole
passes and runs of passes in which any action may fail.

**Smaller parts.** `LinkRepair` is the cycle from a link that went down to one that is up,
`DaemonWait` the shared budget of the two polling loops, `NodeSelection` the node check against the
meaning Kubernetes gives to node selectors, `Requeue` the delay of the next pass. `Text`, `Sorting`,
`Network`, `Kube`, `Links`, `PodPatch` and `Wrappers` are the ground they stand on.

## What the code does that its comments do not say

- The filter of the free lists compares addresses with the *names of the pools* that have a pending
  map (vlanman_controller.go:378-381), so a pending address stays in `FreeIPs`. What is available is
  `FreeIPs` minus `PendingIPs`, which is what the webhook computes. An address spelled like a pool
  disappears; `FreeAgrees` has the exact condition.
- The requeue delay is overwritten by every pool in turn, so with several pools the map order
  chooses it (lines 386-401). `DelayIsReliableWhen` says when that does no harm.
- A failed listing of the daemons is not noticed and looks like an empty one: every link is dropped,
  while the summary still counts them (lines 296-307, `LostDaemonsClearLinks`).
- A status update that fails for another reason than a conflict is not reported, unless it is the
  sixth attempt (lines 498-510).
- `POOLS` and `GATEWAYS` both hold the gateways (manager.go:30-46), and mappings are never read
  back, so a manager with mappings is updated in every pass, to no effect (`SecondPass`).
- The blank names that precede the daemons' names keep a link of the pod "" as long as there is a
  daemon (vlanman_controller.go:300-307); the blank networks change nothing (`BlanksAreHarmless`).
- The node check reads the selector terms as if they were ANDed; the scheduler ORs them. For terms
  that only exclude hosts both agree exactly when all terms exclude the same ones
  (`ExactWhenTermsAgree`); for a term of any form acceptance can be trusted exactly when the term is
  non-empty and asks for nothing but hosts to avoid, a hostname label, or an empty exclusion
  (`SoundForOneTerm`).
- A pod that brings a `MACVLAN_IP` of its own reports that one, so the reconciler takes its grant for
  abandoned and gives the address away (`ClaimedPodsCollide`).

## Assumptions of the allocation protocol

Each bare address is non-empty and has one home pool and one written form during a run. Edits of
the specification respect that and remove no pool. The operator's view shows a granted pod within
`visibleBy` of its grant or never, and drops it at most once, after it is gone. A reconciler reads the
clock at most `lag` after it listed the pods. `claims` says whether pods may arrive with a
`MACVLAN_IP` of their own. Uniqueness holds in every run if and only if `visibleBy + lag` is at most
34 seconds and a nanosecond and pods make no such claims (`UniqueExactlyWhenSafe`). The results about
commits and stamps hold in every run, however late pods show up and whatever they claim.

## Model

| member | source | states |
|---|---|---|
| ProtocolBound.UniqueExactlyWhenSafe | internal/webhook/corev1/webhook.go:87-123 | over all runs of webhooks, reconcilers, link writers, pods and clock, two existing pods can get one bare address if and only if deadline plus lag exceed 34 s + 1 ns or pods may claim addresses of their own |
| ProtocolTheorems.NoTwoPodsShareAnAddress | internal/webhook/corev1/webhook.go:87-123 | in every state of every run within these conditions, pods in flight or live have different bare addresses, both as granted and as the reconciler reads them out of the pods |
| ProtocolInvariant.NextInv | internal/controller/vlanman_controller.go:346-383 | every step of every writer, pod and clock keeps: an unseen holder is stamped with its grant time, a seen one is not allocatable, holders are pairwise distinct, and a listing that can still be committed is fresh enough for every stamp it misses |
| ProtocolBase.NextBase | internal/controller/vlanman_controller.go:286-427 | with no bound on when pods show up, every step keeps: the free lists fit the specification and every writer remembers a committed version; and it commits nothing but its transform |
| ProtocolBase.RunBase | internal/controller/vlanman_controller.go:405-427 | that holds in every state of every run |
| ProtocolTheorems.RunInv | internal/controller/vlanman_controller.go:405-427 | the invariant holds in every state of every run with timely pods that claim nothing |
| ProtocolTheorems.CommitsAreTransforms | internal/controller/vlanman_controller.go:405-427 | in every run, although a writer computes from an old reading, each commit is its transform applied to the status committed just before; link writers leave addresses alone; no other step commits |
| ProtocolTheorems.StampLeavesOnlyByReconcile | internal/controller/vlanman_controller.go:346-363 | in every run, a committed stamp never changes and is removed if and only if a reconcile commit listed a pod with the address, was past the deadline, or could not read the stamp |
| ProtocolTheorems.StampStaysForGrace | internal/controller/vlanman_controller.go:346-363 | over any stretch of any run within 34 s + 1 ns of the grant in which no committed listing shows the pod, the stamp is kept |
| ProtocolTheorems.PassReclaimsAbandoned | internal/controller/vlanman_controller.go:346-383 | in every run, a committed pass makes an abandoned address allocatable if and only if its clock is past stamp + 35 s, and then the next webhook is offered something |
| ProtocolBound.LatePodsCollide | internal/controller/vlanman_controller.go:360 | for every deadline and lag beyond the bound, a run of a network with one address in which two existing pods hold it |
| ProtocolBound.ClaimedPodsCollide | internal/controller/vlanman_controller.go:353-361 | for every pod that claims another address than its grant, and every deadline and lag, a run in which the granted address goes to a second pod while the first lives |
| ProtocolBound.TimelyPodsGetAddresses | internal/webhook/corev1/webhook.go:87-123 | within the bound, for every deadline and lag, a run in which a pod is granted the only address, goes live and is seen: the safety results are not about idle runs |
| Refinement.AdmissionIsGrantStep | internal/webhook/corev1/webhook.go:87-123 | a committed admission leaves the record committed at that moment with one more stamp, that of the time of the admission, on its first available address; no other network changes |
| Refinement.AdmittedPodReports | internal/webhook/corev1/webhook.go:126-175 | an admitted pod is labelled for its network, reports the stamped address unless it claims another, and lists the managers |
| Refinement.PassIsReconcileStep | internal/controller/vlanman_controller.go:413-425 | each network that a pass committed was still as read and holds the reconcile of that record with the pods, daemons and clock of its turn |
| Refinement.PassHeedsItsPods | internal/controller/vlanman_controller.go:346-383 | its free lists hold no address of a pod of its turn, each stamp is gone exactly for one of the four reasons with these pods and this clock, and the specification is as read |
| Refinement.PassTouchesNoOther | internal/controller/vlanman_controller.go:413-425 | networks that a pass did not commit keep their records |
| Refinement.PassReportsDelay | internal/controller/vlanman_controller.go:405-427 | the delay of a finished pass is one for the stamps it left in the last network |
| IpamFacts.GraceIsExact | internal/controller/vlanman_controller.go:360 | 34 s + 1 ns is the longest wait after which no stamp written in whole seconds has lapsed, for all grant times |
| IpamFacts.PoolIsPartitioned | internal/controller/vlanman_controller.go:316-383 | after a pass a pool's addresses fall into held, pending and available, pairwise disjoint, and the three sizes add up to the pool's |
| IpamFacts.FreeAgrees | internal/controller/vlanman_controller.go:309-383 | from any status the free pools are those of the specification, and each holds its addresses in order minus the held ones, if and only if no other address of it is spelled like a pool with a pending map |
| IpamFacts.WithoutSplits | internal/controller/vlanman_controller.go:379-382 | filtering a list is filtering its parts, so order is kept |
| IpamFacts.ReconcileTwice | internal/controller/vlanman_controller.go:286-383 | a second pass over the same specification, listing and clock changes nothing |
| IpamFacts.StampDroppedWhen | internal/controller/vlanman_controller.go:309-363 | the four reasons for which a pass drops a stamp, and no others |
| IpamFacts.LinksKeptWhen | internal/controller/vlanman_controller.go:299-307 | a link is kept, unchanged, if and only if its pod is a listed daemon, or nameless while there is a daemon; the summary is left alone |
| IpamFacts.PendingPoolsAre | internal/controller/vlanman_controller.go:309-325 | which pools have a pending map after a pass: those of the specification, and those that had no free list |
| IpamFacts.LastPoolWins | internal/controller/vlanman_controller.go:316-325 | of several pools with one name the last gives the addresses |
| IpamFacts.AbandonedIsReclaimed | internal/controller/vlanman_controller.go:346-383 | an abandoned address is allocatable after a pass if and only if the clock was past its deadline |
| IpamFacts.FirstFreeIsFirst | internal/webhook/corev1/webhook.go:100-108 | the pick is the entry of the pool that is not pending and before which all are |
| IpamFacts.GrantIsMinimal | internal/webhook/corev1/webhook.go:87-116 | refusal if and only if nothing in the pool is allocatable; otherwise exactly one new stamp, in that pool, and nothing else changes |
| StatusObject.ExtractVlan | internal/controller/vlanman_controller.go:260-278 | the loops return the last address and prefix over all init containers |
| StatusObject.NetworkStatus.PruneLinks | internal/controller/vlanman_controller.go:299-307 | deleting while iterating, in any order, keeps a link if and only if its pod is a listed daemon, or nameless while there is a daemon |
| StatusObject.NetworkStatus.DropPools | internal/controller/vlanman_controller.go:309-314 | both maps lose exactly the free pools that left the specification |
| StatusObject.NetworkStatus.ResetPools | internal/controller/vlanman_controller.go:316-325 | every pool gets its addresses back, the last of one name winning, and a pending map if it has none |
| StatusObject.NetworkStatus.ExpireStamps | internal/controller/vlanman_controller.go:346-363 | in any order of pools and stamps, what remains is what survives the listing and the clock |
| StatusObject.NetworkStatus.RebuildFree | internal/controller/vlanman_controller.go:374-383 | in any order of pools, each free list is filtered once against pool names and held addresses |
| StatusObject.NetworkStatus.Reconcile | internal/controller/vlanman_controller.go:286-403 | the whole in-place pass leaves exactly the transform of the old status, so the result does not depend on map order |
| StatusObject.NetworkStatus.Grant | internal/webhook/corev1/webhook.go:87-116 | the loop picks the offer of the transform and writes the granted status; a refusal leaves the stamps alone |
| StatusObject.NetworkStatus.UpdateShortState | api/v1/vlanman_types.go:109-119 | the loop counts the links that are not up, in any order |
| Requeue.EarliestOf | internal/controller/vlanman_controller.go:386-400 | nil for no stamps, else the least remaining time of the pool |
| Requeue.DelayIsReliableWhen | internal/controller/vlanman_controller.go:385-402 | every possible delay is the overall earliest if and only if all pools agree on their earliest; with at most one pool they do |
| Requeue.DelayNotBelowOverall | internal/controller/vlanman_controller.go:385-402 | a reported delay is never below the overall earliest time, and equals it when one pool has a pending map |
| Requeue.DelayIsUntilLapse | internal/controller/vlanman_controller.go:346-402 | the overall delay is the time of the next change: a pass up to then finds no stamp lapsed, every later one does |
| Requeue.LapsesAfter35Seconds | internal/controller/vlanman_controller.go:395 | the remaining time of a stamp ends 35 whole seconds after the second written down |
| Requeue.RequeueAfter | internal/controller/vlanman_controller.go:525-537 | the least of all delays given, none if none was given |
| PodPatch.PatchedReportsGrant | internal/webhook/corev1/webhook.go:178-232 | for every pod and patch, the reconciler reads the granted bare address if and only if no init container claims another, and finds one at all if and only if the address that counts is not empty |
| PodPatch.PatchedReportsText | internal/webhook/corev1/webhook.go:178-232 | for a pod without claims the full text comes back, with "/32" added when it had no prefix, if and only if the address does not end in its slash |
| PodPatch.ExistingClaimWins | internal/controller/vlanman_controller.go:260-278 | a pod that brings its own MACVLAN_IP reports the bare part of that, whatever was granted |
| PodPatch.PatchKeepsPod | internal/webhook/corev1/webhook.go:178-252 | a patched pod has all it had, the worker's label, the new container first, and for each part of affinity the network's where it gives one, else its own |
| PodPatch.InitIsTold | internal/webhook/corev1/webhook.go:206-227 | the init container finds the network, the routes and the managers |
| PodPatch.ContainersAreTold | internal/webhook/corev1/webhook.go:233-247 | every container keeps its variables and finds two more, which put together are the granted address, with "/32" if it had no prefix |
| PodPatch.LastOneCounts | internal/controller/vlanman_controller.go:263-272 | of several variables with one name the last is read |
| Webhook.WorkerPod.ApplyPatch | internal/webhook/corev1/webhook.go:178-252 | the in-place edits of labels, init containers, every container's variables and affinity make up the patched pod, with the managers in any order |
| Webhook.Default | internal/webhook/corev1/webhook.go:51-176 | each way out is taken if and only if its condition holds: admitted exactly when both annotations are there, an address was allocatable, the record read is still the network's, the update got through and all managers have an address; the server changes only by a commit that stamps the first available address with the time of the admission, and a failure after it leaves only that stamp; the pod changes only if admitted |
| Webhook.EndpointsAreLast | internal/webhook/corev1/webhook.go:146-154 | the map of managers has exactly the nodes with one, each with the address of its last |
| Webhook.ManagersReadBack | internal/webhook/corev1/webhook.go:192-227 | split at its commas, the text of the managers has exactly one `node=address` entry for each node with a manager |
| Webhook.Reserve | internal/webhook/corev1/webhook.go:81-123 | refuses if and only if nothing is allocatable, and commits if and only if something is, the update gets through and the record read is still the network's |
| Webhook.Admit | internal/webhook/corev1/webhook.go:126-175 | the part after it succeeds if and only if there are managers and all have an address; then the pod is patched with the list of exactly these |
| ApiServer.Store.UpdateStatus | internal/webhook/corev1/webhook.go:117 | a status is committed if and only if the record it was computed from is still the network's |
| ApiServer.ReportLink | cmd/manager/main.go:542-559 | a link writer commits the link and the recounted summary on the record it read, or changes nothing |
| ApiServer.UpdateAllNetworkStatus | internal/controller/vlanman_controller.go:405-427 | the pass ends at the first network whose pods cannot be listed or whose update is answered with an error, never before; the networks before it and no others are committed; the last delay is the one returned |
| ApiServer.PassFinishesWhenFresh | internal/controller/vlanman_controller.go:405-427 | a pass gets through if and only if at its beginning every network was listed, reachable and still as read; then each has the record of its turn |
| ApiServer.LostDaemonsClearLinks | internal/controller/vlanman_controller.go:296-307 | if listing the daemons fails, all links go and nothing else differs from a pass that listed them |
| ApiServer.TurnsAreIndependent | internal/controller/vlanman_controller.go:413-425 | after the loop each network has the record of its own turn only |
| ApiServer.UpdateWithRetries | internal/controller/vlanman_controller.go:498-510 | at most six attempts, only conflicts are retried, and an error is reported if and only if five conflicts were followed by a failure |
| Text.CutJoined | internal/controller/vlanman_controller.go:355-356 | cutting what was joined at a slash gives both parts back |
| Text.CompareChain | internal/controller/manager.go:25-27 | byte-wise comparison is transitive |
| Text.ParseFormatted | internal/controller/manager.go:87-89 | every int64 survives printing in decimal and parsing |
| ManagerCodec.DecodeEncoded | internal/controller/manager.go:38-45 | gateways with their routes survive JSON, nil and empty slices told apart |
| ManagerCodec.ManagerFromSet | internal/controller/manager.go:172-199 | the loop over the variables reads what they say, later ones winning, up to the first that cannot be read |
| ManagerCodec.ReadWritten | internal/controller/manager.go:29-199 | reading the DaemonSet of a manager gives it back with mappings replaced by the empty slice, with or without the monitor container |
| ManagerCodec.SameSetWhen | internal/controller/manager.go:29-140 | two managers have one DaemonSet if and only if they differ in mappings at most |
| ManagerCodec.SetNameInjective | internal/controller/manager.go:50 | different networks have different DaemonSet names |
| ManagerCodec.SetIsComplete | internal/controller/manager.go:48-140 | pods carry the label that the set selects by, run where the network's affinity allows, and the first container is the manager's |
| ManagerCodec.ManagerIsTold | internal/controller/manager.go:86-111 | the six variables of the manager and their values |
| ManagerCodec.EncodedFields | api/v1/vlanman_types.go:38-80 | gateways and routes are written under the field names of the resource |
| ManagerCodec.LastSettingCounts | internal/controller/manager.go:176-190 | reading takes the last setting of each variable; without one the number is -1 and the gateways the empty slice |
| Sorting.SortFunc | internal/controller/vlanman_controller.go:182-183 | in place: sorted, and a permutation |
| Sorting.BinarySearchFunc | internal/controller/vlanman_controller.go:189 | the first position that is not below the target, and whether it is the target |
| Sorting.SearchIsLookup | internal/controller/vlanman_controller.go:189 | on a sorted list that is the first element with the name, or none |
| StateDiff.CreateDesiredState | internal/controller/vlanman_controller.go:142-148 | one manager per listed network, in order, with that network's name, number, gateways, affinity and mappings |
| StateDiff.GetCurrentState | internal/controller/vlanman_controller.go:91-140 | as many blank states as networks and then theirs; the managers read, or the first error |
| StateDiff.StatesAreThoseListed | internal/controller/vlanman_controller.go:100-108 | as many blank states as networks, then one with the name, number, mappings and links of each |
| StateDiff.ReadAllIs | internal/controller/vlanman_controller.go:131-138 | the readings in order, or the error of the first DaemonSet that cannot be read |
| StateDiff.SpawnActions | internal/controller/vlanman_controller.go:170-179 | in any map order, one spawn per network state and pod that is not up |
| StateDiff.DiffStates | internal/controller/vlanman_controller.go:167-216 | sorts the three lists in place; the spawns and then the plain difference of the sorted lists |
| DiffFacts.DiffIsPlain | internal/controller/vlanman_controller.go:188-215 | an action is emitted if and only if: create what is desired, absent and listed; update what is desired, present, unequal and listed; delete what is present and not desired |
| DiffFacts.OneActionPerName | internal/controller/vlanman_controller.go:188-215 | no manager is the subject of two actions |
| DiffFacts.SortingIsHarmless | internal/controller/vlanman_controller.go:182-186 | the same actions for every permutation of the inputs |
| DiffFacts.BlanksAreHarmless | internal/controller/vlanman_controller.go:100-108 | the blank entries add and remove no action |
| DiffFacts.SpawnsPerPod | internal/controller/vlanman_controller.go:170-179 | how often each spawn occurs: once per listing of its network if its pod is not up, else never |
| DiffFacts.SpawnsAreForPodsDown | internal/controller/vlanman_controller.go:100-108 | a spawn is emitted if and only if a listed network reports that pod as not up |
| Convergence.Cluster.Do | internal/controller/actions.go:352-369 | in terms of the answers to its calls: an update writes the DaemonSet or reports an error and changes nothing; a delete removes it, and reports an error also if only the Service stays |
| Convergence.Cluster.CreateManager | internal/controller/actions.go:104-182 | in terms of the answers to its calls: if the budget of polls runs out on unavailable pods and the cleanup works, an error and the DaemonSets as before; in every other case the new DaemonSet stays, without an error exactly if it came up and the jobs and the Service worked |
| Convergence.RunActions | internal/controller/vlanman_controller.go:239-254 | every action is tried whatever became of the others, and exactly the failed ones are collected |
| Convergence.FindsItsName | internal/controller/vlanman_controller.go:241-249 | whether a call is accepted does not depend on the other actions of the pass |
| Convergence.RunsOnlyRepair | internal/controller/vlanman_controller.go:239-254 | after any mix of failures the wrong names are the old ones minus those acted on; their number never grows and falls by each action that met one |
| Convergence.OnePassConverges | internal/controller/vlanman_controller.go:150-216 | if all actions succeed, the DaemonSets are exactly the desired ones and decode to them up to mappings, and no call was refused |
| Convergence.SecondPass | internal/controller/vlanman_controller.go:150-216 | the next pass creates and deletes nothing, and updates exactly the managers whose mappings are not the empty slice, once each and without effect |
| Reconciler.ReconcileNetwork | internal/controller/vlanman_controller.go:218-257 | an unreadable DaemonSet stops the pass with nothing changed; otherwise the actions of the sorted lists are all tried and the error list holds exactly the failed ones |
| Reconciler.PassRepairs | internal/controller/vlanman_controller.go:218-257 | whatever fails, a pass keeps every DaemonSet readable and named after its manager, makes no right name wrong, and shrinks the wrong names if one of their actions was carried out |
| Reconciler.GoodPassSettles | internal/controller/vlanman_controller.go:218-257 | after a pass without failures, spawns included, every network has a DaemonSet that reads as its name, number, gateways and affinity, and there is no other DaemonSet |
| Reconciler.PassFailsWhere | internal/controller/vlanman_controller.go:239-254 | in a pass no call is refused for the name: an action is an error exactly if one of its own calls fails |
| Reconciler.WrongIsUnserved | internal/controller/vlanman_controller.go:150-216 | the wrong names are those of networks whose DaemonSet is missing or reads as something else, and of DaemonSets that no network wants |
| Reconciler.RightStaysRight | internal/controller/vlanman_controller.go:218-257 | over any run of passes the wrong names only become fewer |
| Reconciler.ServedStaysServed | internal/controller/vlanman_controller.go:218-257 | so over any run of passes a network once served stays served, whatever fails |
| Reconciler.PassesSettle | internal/controller/vlanman_controller.go:218-257 | if each pass carries out at least one due action, as many passes as there were unserved names leave every network served and no other DaemonSet |
| LinkRepair.RepairedLinks | internal/controller/actions.go:477-487 | after spawns in any order exactly the repaired pods went up, the addresses are untouched and the summary is that of the links |
| LinkRepair.HealthyMeansAllUp | api/v1/vlanman_types.go:109-119 | the summary reads healthy with all links counted if and only if none is down |
| Links.SummaryCountsUp | api/v1/vlanman_types.go:109-119 | the summary gives the number of links that are up among all, and says whether these are all |
| LinkRepair.CycleRepairs | internal/controller/vlanman_controller.go:170-179 | if all spawns of one difference succeed undisturbed, every listed pod is up, the summary is healthy, and the next difference spawns nothing |
| LinkRepair.DownIsNoticed | cmd/manager/main.go:550-554 | a pod that reports itself down is the subject of exactly one spawn |
| DaemonWait.WaitForDaemonSet | internal/controller/actions.go:113-182 | at most 30 polls in both loops together; the jobs are reached if and only if the set appears and then becomes available within them; the cleanup delete is issued if and only if the budget ends in the second loop |
| DaemonWait.ReadyMeansAvailable | internal/controller/actions.go:145-182 | when the jobs are reached, the last successful reading had no unavailable pod |
| DaemonWait.ReadyPlainly | internal/controller/actions.go:118-165 | in terms of the readings alone: the jobs are reached after the first reading with all pods available once a status that is not all zero was seen |
| DaemonWait.RunsOutPlainly | internal/controller/actions.go:118-182 | the cleanup is due if and only if the set was seen within 30 readings and none of those from then on had all pods available |
| NodeSelection.ValidateMinimumNodes | internal/webhook/v1/validator.go:24-67 | without required terms accepts if and only if there is a node; with them, if and only if some node is in none of the hostname NotIn lists |
| NodeSelection.AcceptedIsSchedulable | internal/webhook/v1/validator.go:30-64 | if one term is harmless, whatever the others hold, acceptance means that the scheduler finds a node |
| NodeSelection.SoundPerNode | internal/webhook/v1/validator.go:30-64 | for any terms, acceptance can be trusted on all clusters if and only if every node that no list excludes is selected |
| NodeSelection.SoundForOneTerm | internal/webhook/v1/validator.go:30-64 | for one term of any form, that is so if and only if it is non-empty and each requirement excludes hosts, asks for a hostname, or excludes nothing |
| NodeSelection.RefusedIsUnschedulable | internal/webhook/v1/validator.go:30-64 | with at most one term, of any form, refusal means that it finds none |
| NodeSelection.ExactWhenTermsAgree | internal/webhook/v1/validator.go:30-64 | the check is right about every cluster if and only if all terms exclude the same hosts |
| NodeSelection.AcceptedElsewhere | internal/webhook/v1/validator.go:30-64 | a term that is not harmless, and a list without terms, are accepted although nothing can be scheduled |

## Left out

- The lease lock around the webhook: it expires after 5 s and is not released when the update fails, so it excludes nobody for certain. Uniqueness rests on the version check of the status update alone; the panic of a locker that could not be created is not modelled.
- Nil maps in a status are read as empty maps; the code replaces the ones it writes to.
- `DeepCopyInto` copies specification and status shallowly. Readings are taken to be value snapshots, so edits of a cached object in place are not captured.
- Dates: a stamp is the second it was written in, or unreadable. The layout of the text and its time zone are not modelled.
- JSON text: values are trees. Case-insensitive keys, numbers, and slice elements reused when a variable is set twice are not captured. The routes of the webhook are a text passed in.
- `slices.SortFunc` is a library; an insertion sort stands in for it, and only "sorted permutation" is used.
- Label selectors and namespaces of the list calls: listings are inputs. That the cluster's managers are all listed is `Reconciler.Lists`.
- A DaemonSet without containers: the API server admits none, and the code would panic on it (manager.go:175), so reading one requires a container.
- Services, interface jobs, PID and readiness requests: each is a call of an action that works or does not. The unbounded waits at actions.go:193 and 383 and the uniqueness of job names are not modelled.
- Time spent sleeping between polls: `DaemonWait` counts readings.
- A syntactic condition for trusting acceptance of several terms of which none is harmless: `SoundPerNode` reduces it to single nodes, where it is validity of a propositional formula.
- Node affinity beyond required match expressions: match fields, the operators Gt and Lt, and preferences, which are kept as text.
- ShortState as an invariant of all states: the reconciler removes links without recomputing the summary (vlanman_controller.go:305-307).
- VLAN id uniqueness over runs: creation uses the deletion validator (vlanman_webhook.go:44), so `validateUnique` is not on that path.
- `UpdateValidator` and `serviceForManagerSet`: easy members.
- Leader election, network interfaces, metrics, logging, Helm and Nix files.
