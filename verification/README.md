# Verification of the namespace-class reconciler

The controller moves each Namespace between NamespaceClasses. It records the move in two
annotations (`last-applied-class` and `current-class`), deletes what the old class owned except
for the overlap with the new one, applies the new class's manifests with an owner label, records
the switch in the class status and triggers a reconcile of the old class. This project models
that protocol as a state machine over a small API server and proves what it keeps over runs.

## How it is built

- `Names`, `Kube`: strings and identifiers; the API server as values. `State` holds namespaces
  with their objects, classes, a clock that gives resource versions, a call counter and the
  triggered requests. A `World` holds the discovery answer and a script: before every call it may
  refuse the call, degrade discovery, mark a namespace as deleting or remove it.
  `Server.ApiServer` is the same server as a mutable object.
- `Watcher`, `Statuses`, `Finalizer`, `Resources`, `Controller`: one module per source file. Each
  operation is a method on the server, with the source's loops and early returns, proved equal in
  state and result to a function on `State`. (`CleanupAllNamespaceClassResources` sits with the
  label listing it uses.)
- `Weather`, `Ideal`, `Refinement`, `Requests`, `Retry`, `Termination`: those functions in steady
  weather, calm up to some call and refused from there on for ever, against an ideal semantics
  without versions, calls or listings (`Settle`, `IdealRequest`, `IdealTerminate`). Steady
  weather covers both the failure-free request and the request cut off after any call.
- `ApplyLoop`, `Cascade`, `Sweeps`, `Listings`, `Release`: results in any weather. `Refusals`: calls
  refused and discovery answered in part here and there, while the namespaces stay.
- `Manifests`, `Fields`, `Reports`: what is stored afterwards, read from the manifests, annotations
  and status entries themselves. `Outcomes`, `Finality`: which requests pass, and what a pass means.
- `Ownership`, `Runs`, `History`, `Agreement`, `Confluence`, `Queues`, `Cleanups`, `Removal`: the
  properties of runs. `Example` holds the small cluster of the concrete inputs.
- `AnnotationSwap`: the annotation updates split into lock, read, guarded write and unlock, with
  any number of workers, reads of any earlier version, and outside writers under no lock.

`dafny verify dfyconfig.toml` checks everything.

## What the theorems assume

- `Wf`: stored versions are at most the clock, stored names are path segments, class names are
  not empty. Kept by every action and request.
- `WorldOk`: discovered types are served, and can be listed if they claim the list verb; groups and
  kinds hold no slash; the core group is `v1`. A served type without the list verb may be refused
  to a listing, whatever the watch filter says of it.
- `Honest` (in `Refusals`): a degraded discovery answer is a part of the full one.
- `Sound` (ownership over runs): installed specs consist of readable, served manifests with valid
  names, of kinds with one home group, listable and watchable. `SwitchKeepsOwnershipIff` says
  exactly what happens to a switch without this.
- Users leave the owner label and the two class annotations alone, except in `AnnotationSwap`,
  where outside writers may write any annotation.
- Requests are serialized, except in `AnnotationSwap`.

## Where the code and its documentation differ

The repository's README.md promises (line 12) cleanup when namespaces are removed from a class.
The code cleans up only on the way into another existing class: a request for a namespace without
a label returns before it touches anything (internal/controller/namespaceclass_controller.go:165-168).
The model follows the code and `Removal.RemovalCleansIff` says exactly when the promise is kept.
The comment above the update predicate of the namespace watch (line 641) says that there was a
change; the expression passes unchanged objects as well (`Controller.EventsReachTheNamespace`).

## Model

| member | source | states |
|---|---|---|
| Runs.RunKeepsOwnership | internal/controller/namespaceclass_controller.go:182-278 | After every failure-free serialized run of relabels, spec edits, class creation, deletion and termination, and class and namespace requests in any order: in each live namespace, with last-applied present current is present and owns every labelled object; with last-applied absent no object is labelled |
| Runs.EmptyClusterOwnership | internal/controller/namespaceclass_controller.go:182-278 | The same for every run from an empty cluster, with no assumption on a starting state |
| Runs.IdealRequestKeepsOwnership | internal/controller/namespaceclass_controller.go:75-179 | One ideal request, class or namespace, keeps the invariant in every namespace |
| Runs.TerminationLeavesNothing | internal/controller/namespaceclass_finalizer.go:49-142 | From a state with the invariant, one request on a terminating class leaves no owner label in its live namespaces, of any kind |
| Ownership.SettleKeepsOwnership | internal/controller/namespaceclass_controller.go:182-278 | From a live namespace with the invariant, a reconcile with a sound spec keeps it, whether it is the first, a switch or a repeat |
| Ownership.SwitchKeepsOwnershipIff | internal/controller/namespaceclass_resources.go:386-433 | For any spec and any discovery answer, unreadable entries, clashing groups and unlisted kinds included: a switch keeps the invariant if and only if every previous object the cleanup spares is written by an entry that gets applied |
| Ownership.SeeingSwitchKeepsOwnershipIff | internal/controller/namespaceclass_resources.go:386-433 | When the listing sees everything the old class owns, only the overlap of kinds and names matters, and only while that class exists |
| Ownership.SwitchCanBreakOwnership | internal/controller/namespaceclass_resources.go:396-413 | Two concrete specs that break it: an unreadable entry before a shared manifest, and the same kind and name in another group |
| Ownership.OrphanIsPermanent | internal/controller/namespaceclass_controller.go:188-200 | An object of another owner that the spec does not write, such as one whose deletion failed and was skipped, survives every later reconcile with the same class |
| Ownership.IncrementalIsWipeAndReapply | internal/controller/namespaceclass_resources.go:386-433 | The incremental reconcile gives what deleting everything owned and applying the spec gives, if and only if it switches classes or the spec still writes every owned object (a shrunk spec is not pruned) |
| Ownership.SwitchOwnsTheTarget | internal/controller/namespaceclass_controller.go:225-265 | After a switch the owned objects are exactly those, with that content, that the target spec makes in a clean namespace; the owned keys are the keys of the spec |
| Removal.RemovalCleansIff | README.md:12 | A namespace removed from its class holds nothing of it after the emitted requests, in any order, if and only if the new label names an existing class or it held nothing before: taking the label off cleans nothing |
| Removal.RemovalCanFail | internal/controller/namespaceclass_controller.go:165-168 | A concrete namespace without a label that, after all emitted requests in any order, still holds the ConfigMap of the class it was removed from |
| Retry.RetryConverges | internal/controller/namespaceclass_controller.go:205-277 | A request refused from any call on, and then retried completely, ends with the same annotations and objects in every namespace as an uninterrupted one (not on a terminating class) |
| Refusals.RetryConvergesIff | internal/controller/namespaceclass_controller.go:205-277 | One namespace reconcile with any calls refused and any discovery answered in part: a complete retry converges if and only if there was no switch, or the annotation update was not accepted, or for every stale object that no entry writes over the cleanup's discovery, a listing of its kind and a deletion of it were answered |
| Refusals.RetryCanDiverge | internal/controller/namespaceclass_resources.go:351-361 | A concrete switch, old class gone and one discovery refused, after which a complete retry does not converge |
| Refusals.CleanupLoses | internal/controller/namespaceclass_resources.go:343-439 | Object by object, in any weather: the switch cleanup takes an object exactly when the calls that find it and one deletion of it were answered, and touches no other namespace |
| Termination.TwoRequestsFinish | internal/controller/namespaceclass_finalizer.go:118-133 | Failure-free, and if every status patch moves the resource version: at most two requests take the one own finalizer entry off a terminating class and clear its live namespaces; the second is needed exactly when the first one recorded a switch and so met a version conflict |
| Termination.FirstRequest | internal/controller/namespaceclass_controller.go:97-118 | The first request clears every live namespace and, if every status patch moves the resource version, releases the class exactly when no namespace recorded a switch |
| Termination.NoSwitchLeft | internal/controller/namespaceclass_controller.go:213-237 | After one terminating request no namespace of the class can switch any more |
| Termination.TerminatingRequestIs | internal/controller/namespaceclass_controller.go:81-138 | The whole request on a terminating class refines a one-line meaning: settle every member, wipe it, drop last-applied, then drop the finalizer unless the class moved |
| Release.ReleaseClearsIff | internal/controller/namespaceclass_finalizer.go:49-142 | In any weather, whether or not it releases the class: the cleanup clears the live namespaces of the class if and only if the namespaces were listed and for each object due a listing of its kind, under the discovery answer, and a deletion of it were answered |
| Release.ReleaseCanLeaveObjects | internal/controller/namespaceclass_finalizer.go:153-157 | A concrete cleanup, one discovery refused, that passes and releases the class while every object is still there |
| Release.ErrorFreeCleanup | internal/controller/namespaceclass_finalizer.go:118-142 | A cleanup that passes has listed the namespaces and removed everything it found, so that only refused discoveries and listings can have hidden something |
| Sweeps.LabelledFinds | internal/controller/namespaceclass_finalizer.go:145-261 | In any weather the label listing finds exactly the owned objects of those types in the discovery answer for which a listing call was answered; each type costs one call, in discovery order |
| Sweeps.SweepRemoves | internal/controller/namespaceclass_controller.go:765-807 | In any weather the sweep removes exactly the objects found for which a deletion call was answered |
| Cascade.Drain | internal/controller/namespaceclass_controller.go:281-304 | Serving triggered requests in any order, under any script of refusals, degraded discoveries and vanishing namespaces, ends within as many runs as there were requests plus namespaces whose current annotation differs from their label |
| Cascade.RequestIsPaid | internal/controller/namespaceclass_controller.go:225-249 | No request, whatever fails, raises queued requests plus lagging namespaces, moves a label, or makes a new mismatch |
| Cascade.SwitchClassPaid | internal/controller/namespaceclass_controller.go:225-239 | A trigger follows only an annotation update that took a namespace out of the lagging ones |
| Confluence.RelabelConfluence | internal/controller/namespaceclass_controller.go:685-761 | A live namespace moved to an existing class: the emitted requests, in any order, settle it with the new class and give the same annotations, objects and statuses everywhere, even when it shares its name with a class |
| Confluence.WorklistConfluence | internal/controller/namespaceclass_controller.go:75-179 | Any two orders of any worklist, none of whose requests names a terminating class, give the same annotations, objects and statuses |
| Queues.DrainConfluence | internal/controller/namespaceclass_controller.go:281-304 | With no class terminating, two orders of a worklist trigger the same requests, counted with repetitions; draining them round by round ends within the budget, and in the same view |
| Queues.ServeTriggers | internal/controller/namespaceclass_controller.go:238-240 | Serving a worklist triggers a class once for each namespace that is reached and leaves that class, however often and in whatever order it is reached |
| Queues.RoundsEnd | internal/controller/namespaceclass_controller.go:281-304 | In any weather, after as many rounds as there were queued requests plus lagging namespaces, nothing is queued |
| Confluence.PermutationsAgree | internal/controller/namespaceclass_controller.go:75-179 | The same for ideal requests (the meaning of a request that does not name a terminating class): serving any permutation of a worklist gives one view |
| Confluence.RequestsCommute | internal/controller/namespaceclass_controller.go:75-179 | Any two ideal requests (the meaning of a request that does not name a terminating class) commute |
| Confluence.ServedNamespace | internal/controller/namespaceclass_controller.go:75-179 | A namespace ends settled by its class as soon as one request of the worklist reaches it, and untouched otherwise |
| AnnotationSwap.RunsAreSerializable | internal/controller/namespaceclass_controller.go:482-540 | Under every interleaving of workers and outside writers, with reads of any earlier version, the store is what doing the accepted writes one after the other, each at one instant, gives |
| AnnotationSwap.SwitchRecordsWhatItOverwrites | internal/controller/namespaceclass_controller.go:500-529 | Every accepted switch records as last-applied exactly the differing non-empty class it overwrote at that instant, sets current, and changes nothing else |
| AnnotationSwap.NoForeignWriteIsLost | internal/controller/namespaceclass_controller.go:494-529 | A foreign annotation, label or deletion mark stays until somebody writes that part again, whatever the workers write back |
| AnnotationSwap.MutualExclusion | internal/controller/namespaceclass_controller.go:485-489 | At most one worker per namespace is between lock and unlock |
| AnnotationSwap.NobodyIsStuck | internal/controller/namespaceclass_controller.go:485-489 | Every worker can move or waits for one that can |
| AnnotationSwap.AcceptedCopyIsStored | internal/controller/namespaceclass_controller.go:524-533 | A guarded write is accepted if and only if the copy it was made from, however old, equals what is stored |
| History.AnnotationsTellHistory | internal/controller/namespaceclass_controller.go:206-259 | In every failure-free serialized run the annotations are the final two elements of the stutter-free sequence of classes applied since the last reset (equal when there is one), and last-applied without current is never reached, so the branch at line 250 is dead |
| Agreement.StatusAgreesWithAnnotations | internal/controller/namespaceclass_status.go:61-123 | In runs with fully applicable specs and no finalizers, across switches, switch-backs and refreshes, what the current class reports as a previous class is empty or is the last-applied annotation |
| Requests.RequestRefinesIdeal | internal/controller/namespaceclass_controller.go:75-179 | Without failures a request, on anything but a terminating class, does on annotations, objects and statuses exactly what an ideal request without versions, calls and listings does |
| Requests.ClassRequestIs | internal/controller/namespaceclass_controller.go:81-138 | A class request that passes, or is not cut off, settles every member and lists exactly the members in the status; cut off, each member is untouched or interrupted; the triggered classes are the classes switched away from, in member order |
| Requests.NamespaceRequestIs | internal/controller/namespaceclass_controller.go:145-178 | A namespace request settles the live labelled namespace and nothing else; cut off, it leaves an interrupted reconcile; one that passes has settled the namespace |
| Refinement.WithClassIs | internal/controller/namespaceclass_controller.go:182-278 | One namespace reconcile: complete, it settles the namespace, records the switch and triggers the old class; cut off anywhere, it leaves one of the states from which a retry completes; if it passes, the namespace is settled |
| Ideal.RetryCompletes | internal/controller/namespaceclass_controller.go:205-277 | From every interrupted state settling again gives what settling would have given |
| Ideal.SettleIdempotent | internal/controller/namespaceclass_controller.go:395-424 | Settling twice is settling once, and the second time there is no switch |
| Ideal.ApplyAt | internal/controller/namespaceclass_controller.go:395-424 | Last writer wins, for any number of entries: a key holds the prepared form of the last manifest for it, and every other key what it held; Manifests.AppliedAt says what the prepared form holds |
| Ideal.ApplyAgain | internal/controller/namespaceclass_controller.go:395-424 | Applying a spec over any part of it already applied is applying it once |
| Refinement.ApplyLoopIs | internal/controller/namespaceclass_controller.go:395-424 | The apply loop applies all entries up to the first one the server does not take and passes if and only if that is all of them |
| ApplyLoop.AppliesAPrefix | internal/controller/namespaceclass_controller.go:395-424 | In any weather, with refusals and namespaces vanishing before any call, the namespace holds exactly what the first k manifests make, where k is the entry at which the loop stopped: the one that failed, or the one before which the namespace could not be looked up, was gone or was going |
| ApplyLoop.ApplyOneIsAtomic | internal/controller/namespaceclass_resources.go:178-304 | One manifest is applied completely or not at all |
| Fields.ReconcileFields | internal/controller/namespaceclass_controller.go:182-278 | A failure-free reconcile field by field: label, deletion mark and other annotations stay; current is the class; last-applied is the class the first time, the class left on a switch, and otherwise as it was; every key the applied entries write holds the last of them; any other object goes if and only if there was a switch and SwitchCleanupTakes says so |
| Fields.SwitchCleanupTakes | internal/controller/namespaceclass_resources.go:343-439 | Without failures an object is gone after the switch cleanup if and only if the previous class owned it, discovery lists its kind, and no convertible entry of the target has its kind and name (for a class that is gone: discovery offers its kind for the sweep) |
| Fields.MentionedStays | internal/controller/namespaceclass_resources.go:386-418 | In any weather, while the previous class exists, the cleanup never takes an object whose kind and name a convertible entry of the target has |
| Fields.ListedFields | internal/controller/namespaceclass_resources.go:89-110 | Which kinds a listing gets, field by field: the group of a parsed group version, the kind, namespaced, and the verb list; for the sweep the verb watch, no slash in the name, and a version the server lists |
| Resources.KeptIsMentioned | internal/controller/namespaceclass_resources.go:386-413 | For slash-free kinds and names the kept keys decide which kinds and names the target mentions |
| Manifests.ApplyOneStores | internal/controller/namespaceclass_resources.go:178-304 | In any weather: applying a manifest that passes leaves it stored as written, with the owner label set to the class, and no other object of any namespace is touched, whether it passes or not |
| Manifests.AppliedAt | internal/controller/namespaceclass_controller.go:395-424 | After k entries a key holds content and labels of the last of them that writes it, with the class as owner, or what it held before |
| Manifests.PassingApply | internal/controller/namespaceclass_controller.go:340-431 | In any weather, for a namespace that is live afterwards: an apply that passes has written every key of the spec with its last manifest and left every other key alone |
| Manifests.PassingReconcileStores | internal/controller/namespaceclass_controller.go:182-278 | In any weather the same for a whole reconcile, first time, switch or repeat: if it passes, every key of the spec holds its last manifest |
| Outcomes.PassMeansDone | internal/controller/namespaceclass_controller.go:182-278 | In any weather, what a namespace reconcile that passes has done: both annotations, the cleanup of a switch, and every manifest of a namespace that was live all the while; classes keep everything but their status |
| Outcomes.CutOffIsNotPassed | internal/controller/namespaceclass_controller.go:75-179 | A request refused from some call on, on anything but a terminating class, passes only if all the namespaces it is about are settled; cut off before that, it fails and is queued again |
| Outcomes.NamespaceOutcome | internal/controller/namespaceclass_controller.go:145-178 | A namespace request in any weather: an error for a refused lookup or a label that names no class, a pass for a namespace that is gone, going or without a label, else the outcome of its reconcile |
| Outcomes.CalmNamespaceOutcome | internal/controller/namespaceclass_controller.go:157-178 | Without failures a namespace request passes if and only if the namespace is gone, going or unlabelled, or its class exists and every entry is readable, of a served type and validly named; a missing class is NotFound |
| Outcomes.ClassOutcome | internal/controller/namespaceclass_controller.go:81-140 | A request on a class that is not terminating, in any weather: it passes if and only if lookup, member listing and the three calls of the status refresh are answered, whatever became of the members; then the class has seen its generation and is ready |
| Outcomes.CalmClassOutcome | internal/controller/namespaceclass_status.go:126-163 | After a failure-free request a class that is not terminating has observed its generation and is ready, and the request passed |
| Outcomes.CalmMemberReport | internal/controller/namespaceclass_status.go:61-123 | What the status says of each member after a failure-free class request: the class it left if it switched completely, else what was last reported |
| Outcomes.ApplyOutcome | internal/controller/namespaceclass_controller.go:340-431 | Where an apply ends before its loop: a refused lookup, or a refused discovery of what the class holds, fails it; a namespace that is gone or going, or an empty spec, passes it |
| Outcomes.CleanupOutcome | internal/controller/namespaceclass_resources.go:343-439 | A switch cleanup fails only if a class cannot be looked up or the discovery of the old objects is not answered; every failed deletion, and the failed discovery of a sweep, is passed over |
| Outcomes.SwitchOutcome | internal/controller/namespaceclass_controller.go:213-277 | A switch fails with its cleanup, its annotation update or its apply, and with nothing else: recording it is best effort |
| Outcomes.AnnotationOutcomes | internal/controller/namespaceclass_controller.go:435-540 | In any weather both annotation calls pass if and only if the read and the write are answered and the namespace is there and does not begin to go in between; which error they give otherwise |
| Finality.TerminatingPassesIff | internal/controller/namespaceclass_controller.go:105-127 | Without failures a request on a terminating class passes if and only if no settled live member holds an object of the class that two discovered types bring, and, with an own finalizer entry, no switch was recorded and other entries keep the class there: the request that releases a class with no other finalizer always fails in the refresh |
| Finality.TerminatingOutcome | internal/controller/namespaceclass_controller.go:105-127 | In any weather such a request fails with its cleanup, and else with its refresh, which fails if the class is gone by then |
| Finality.TerminatedFields | internal/controller/namespaceclass_finalizer.go:49-142 | What a failure-free terminating request leaves of a live member, field by field: no last-applied, current set, all other annotations, and of the settled objects all but those of the class whose kind can be swept |
| Finality.PassingCleanup | internal/controller/namespaceclass_finalizer.go:49-142 | In any weather a cleanup that passes has listed the members, every one that was live has lost its last-applied annotation, and the first own finalizer entry is off |
| Finality.ReleaseIsAttempted | internal/controller/namespaceclass_finalizer.go:117-133 | In any weather, whatever failed before, the cleanup goes on to the guarded update that takes the finalizer entry off, and passes only if that call does |
| Finality.CleanupPassesIff | internal/controller/namespaceclass_finalizer.go:49-142 | Without failures the cleanup passes if and only if no object is found under two types and the class has not moved since it was read; a second deletion of one object is an error |
| Reports.RefreshReports | internal/controller/namespaceclass_status.go:16-163 | A refresh that passes, in any weather, writes this status alone: the stored generation, ready, and for the listed namespaces, in order of name, an entry with the class, Applied, and what the last entry of that name had as last applied |
| Reports.SwitchReports | internal/controller/namespaceclass_status.go:126-247 | Recording a switch that passes, in any weather: generation, ready, and the class that was left in every entry of the namespace or in a new one at the end; without a class that was left, no call at all |
| Reports.LookupIsLast | internal/controller/namespaceclass_status.go:96-102 | Of several entries with one name the lookup map knows the last |
| Listings.ManagedFinds | internal/controller/namespaceclass_resources.go:42-174 | In any weather the identifier listing fails exactly when discovery answers nothing, and otherwise returns the identifier of an object exactly when it is owned and a listing of its kind was answered; a failed listing costs its own type only |
| Listings.ListableFields | internal/controller/namespaceclass_resources.go:89-110 | A type is listed if and only if a list with its group and version has a namespaced resource of its kind with the verb list |
| Listings.DeletionVersionIs | internal/controller/namespaceclass_resources.go:454-545 | A deletion in the core group goes to v1 without a call; in another group to the version of the first list in discovery order that has the kind, or to v1 if there is none or no answer |
| Listings.PreferredVersionsAre | internal/controller/namespaceclass_resources.go:491-545 | The preferred versions are one for each list that has the kind in the group, in discovery order |
| Listings.DeletionOutcome | internal/controller/namespaceclass_resources.go:454-488 | Deleting what is not there passes; a refused call and a version that is not served are the errors |
| Names.GroupVersionParts | internal/controller/namespaceclass_resources.go:71-76 | A group version without a slash is one of the core group, with one slash it is split there, with more it is refused |
| Watcher.SuitableIs | internal/controller/namespaceclass_resource_watcher.go:70-172 | The suitable types are those of the lists one after the other and of the resources of each one after the other; a resource gives its type once or, unless it is namespaced, watchable and no subresource, not at all |
| Watcher.SuitableFields | internal/controller/namespaceclass_resource_watcher.go:176-193 | A type is suitable if and only if a list with its group and version has a namespaced resource of its kind with the verb watch and no slash in its name |
| AnnotationSwap.RewritesAreExact | internal/controller/namespaceclass_controller.go:435-540 | In every interleaved run each accepted rewrite (set both, switch, forget) does exactly that to the annotations stored at that instant |
| Controller.RequestsAreCounted | internal/controller/namespaceclass_controller.go:685-761 | How often the mapper requests each name, and that the namespace comes first |
| Finalizer.TallyCounts | internal/controller/namespaceclass_finalizer.go:189-196 | The summary counts for each kind the objects found of it and lists no other kinds |
| Refinement.SwitchCleanupIsExact | internal/controller/namespaceclass_resources.go:343-439 | The cleanup removes exactly the stale objects of this namespace, also when a kind is listed twice, and all else, in all namespaces, is unchanged; Fields.SwitchCleanupTakes says field by field which objects those are |
| Refinement.ListedIsDeletable | internal/controller/namespaceclass_resources.go:454-545 | Every listed group and kind resolves, for a named group, to a version under which discovery lists the kind; the "v1" fallback serves the core group alone |
| Refinement.PreferredVersionsListTheKind | internal/controller/namespaceclass_resources.go:491-545 | Every preferred version lists the kind in the group, and there is one if any list does |
| Weather.ManagedIsComplete | internal/controller/namespaceclass_resources.go:42-174 | The identifier listing returns the identifiers of exactly the owned objects whose kinds are listable |
| Weather.LabelledIsComplete | internal/controller/namespaceclass_finalizer.go:145-261 | The label listing returns exactly the owned objects whose kinds pass the watch filter and can be listed |
| Cleanups.CleanupsAgreeIff | internal/controller/namespaceclass_controller.go:765-807 | Against a target without readable entries the two cleanups leave the same objects if and only if both listings see the same of the old class's objects |
| Cleanups.CleanupsAgree | internal/controller/namespaceclass_resource_watcher.go:176-193 | They agree whenever every namespaced type is listable exactly when watchable and none is a subresource |
| Names.IdentifierRoundTrip | internal/controller/namespaceclass_resources.go:169-170 | Splitting "group/kind/name" of slash-free parts, group possibly empty, recovers the three parts |
| Names.KindNameDecides | internal/controller/namespaceclass_resources.go:396-413 | A "kind/name" key of slash-free parts equals another key if and only if both parts do, so the map lookup decides the pair |
| Statuses.SwitchRefinesMap | internal/controller/namespaceclass_status.go:208-247 | Lookup after a class switch is the old lookup map updated at one name |
| Statuses.SwitchKeepsShape | internal/controller/namespaceclass_status.go:208-247 | A switch keeps order, uniqueness of names and the owning class of every entry; a new name goes last |
| Statuses.BuildRefinesMap | internal/controller/namespaceclass_status.go:61-123 | A rebuilt list holds exactly the labelled namespaces, each with what the lookup map had for it, all owned by the class |
| Statuses.BuildKeepsOrder | internal/controller/namespaceclass_status.go:61-93 | A rebuilt list follows the order of the listing, and has unique names if the listing has |
| Statuses.BuildIdempotent | internal/controller/namespaceclass_status.go:61-123 | Rebuilding what was just rebuilt changes nothing |
| Statuses.LookupMapMembers | internal/controller/namespaceclass_status.go:96-102 | The lookup map knows exactly the names in the list, and each with an entry of that name |
| Finalizer.SummaryConserves | internal/controller/namespaceclass_finalizer.go:170-205 | The per-kind counts sum to the number of objects returned |
| Finalizer.WithoutOursAt | internal/controller/namespaceclass_finalizer.go:118-126 | Removing the finalizer entry takes out exactly its first occurrence |
| Watcher.WatchPartition | internal/controller/namespaceclass_resource_watcher.go:70-172 | Type i of the flattened, filtered discovery answer is watched if registration i succeeds and failed if not, at the place that its predecessors with the same outcome give it; nothing else is reported |
| Controller.EventsReachTheNamespace | internal/controller/namespaceclass_controller.go:627-645 | The update predicate passes every update of a live namespace that has or had a label or current class, changed or not; the mapper then requests the namespace, and both classes when they differ |
| Controller.Reconcile | internal/controller/namespaceclass_controller.go:75-179 | Dispatch by name, class first; per-namespace failures dropped; the finalizer path only for a terminating class; state and result as the function Request gives, whose outcomes are the rows of Outcomes and Finality |
| Controller.ReconcileNamespaceWithClass | internal/controller/namespaceclass_controller.go:182-278 | First-time setup, switch, late setup or plain reconcile, as WithClass gives |
| Controller.ReconcileNamespaceClassResources | internal/controller/namespaceclass_controller.go:340-431 | The apply loop with a fresh look at the namespace before each entry, as ApplyClass gives |
| Controller.SetClassAnnotations | internal/controller/namespaceclass_controller.go:435-478 | Read, set both annotations, guarded write, by one worker alone; the mutex is part of AnnotationSwap |
| Controller.UpdateCurrentClassAnnotation | internal/controller/namespaceclass_controller.go:482-540 | Read, swap, guarded write, by one worker alone; the mutex is part of AnnotationSwap |
| Controller.TriggerReconcile | internal/controller/namespaceclass_controller.go:281-304 | A non-empty class name is queued once |
| Controller.EnqueueNamespaceWithClassFilter | internal/controller/namespaceclass_controller.go:685-761 | The namespace, then the old and new class where they differ and are named |
| Resources.GetCurrentNamespaceClassResources | internal/controller/namespaceclass_resources.go:42-86 | The discovery loop over group versions; unparsable ones skipped |
| Resources.FindManagedResourcesForGV | internal/controller/namespaceclass_resources.go:89-124 | The loop over listable types |
| Resources.ListManagedResourcesOfKind | internal/controller/namespaceclass_resources.go:127-174 | Identifiers of one kind; a failed list gives none |
| Resources.ApplyResourceToNamespace | internal/controller/namespaceclass_resources.go:178-304 | Convert, label, then update what exists under its version or create what does not; after a pass the namespace holds the manifest with its content and labels as written and the class as owner |
| Resources.CleanupPreviousNamespaceClassResources | internal/controller/namespaceclass_resources.go:343-439 | Sweep when the old class is gone, else diff against the target; all failures kept or skipped as in the code. What it takes and when it fails: Fields.SwitchCleanupTakes, Fields.MentionedStays, Outcomes.CleanupOutcome |
| Resources.BuildResourceMap | internal/controller/namespaceclass_resources.go:386-399 | A slash-free "kind/name" is in the map if and only if some convertible entry has that kind and that name |
| Resources.DeleteEachStale | internal/controller/namespaceclass_resources.go:402-433 | Split each identifier, skip kept and malformed ones, delete the rest |
| Resources.DeleteResourceByKindAndName | internal/controller/namespaceclass_resources.go:454-488 | Delete under the preferred version; NotFound is success |
| Resources.GetPreferredVersionForResource | internal/controller/namespaceclass_resources.go:491-545 | The versions listing the kind, in discovery order |
| Finalizer.ListResourcesWithLabel | internal/controller/namespaceclass_finalizer.go:145-218 | What the label listing returns, with a summary whose counts are the per-kind tally of it and sum to its length |
| Finalizer.ListResourcesOfType | internal/controller/namespaceclass_finalizer.go:221-261 | One type; a failed list gives none |
| Finalizer.AddToSummary | internal/controller/namespaceclass_finalizer.go:190-200 | Adding a type's count to the summary keeps it the tally of everything found |
| Finalizer.CleanupAllNamespaceClassResources | internal/controller/namespaceclass_controller.go:765-807 | Delete everything listed; failures dropped |
| Finalizer.FinalizeOneNamespace | internal/controller/namespaceclass_finalizer.go:59-115 | Delete everything listed, then drop last-applied; every failure, NotFound too, is collected |
| Finalizer.HandleFinalizerCleanup | internal/controller/namespaceclass_finalizer.go:49-142 | All namespaces of the class, then the finalizer entry whatever failed before |
| Finalizer.RemoveFinalizer | internal/controller/namespaceclass_finalizer.go:118-126 | The list without its first own entry, and whether there was one |
| Statuses.MakeStatusLookupMap | internal/controller/namespaceclass_status.go:96-102 | The lookup map of the list |
| Statuses.CreateNamespaceStatusEntry | internal/controller/namespaceclass_status.go:105-123 | An entry that carries over the recorded previous class |
| Statuses.BuildStatusEntries | internal/controller/namespaceclass_status.go:61-93 | The rebuilt list |
| Statuses.UpdateStatusForClassSwitch | internal/controller/namespaceclass_status.go:208-247 | The switched list |
| Statuses.UpdateNamespaceClassStatus | internal/controller/namespaceclass_status.go:16-37 | Read, list, rebuild, patch |
| Statuses.UpdateClassSwitchStatus | internal/controller/namespaceclass_status.go:167-205 | Read, switch, patch; nothing for an empty or equal previous class |
| Statuses.ApplyStatusUpdate | internal/controller/namespaceclass_status.go:126-152 | The patch of generation, readiness and entries: after a pass the class reports the generation of the copy, is ready, and has these entries |
| Watcher.WatchDiscoveredResources | internal/controller/namespaceclass_resource_watcher.go:70-104 | The loop over the discovery answer; the result puts every suitable type where the outcome of its own registration says |
| Watcher.WatchResourcesInGroupVersion | internal/controller/namespaceclass_resource_watcher.go:136-172 | The loop over one group version; a result that was right for the types before stays right for these types added |

## Left out

- Retry.RetryConverges: does not compare statuses, because a retry no longer sees the switch, and covers requests on classes that are not terminating.
- Termination.TwoRequestsFinish: clears the kinds that discovery offers for watching, as the code does; Runs.TerminationLeavesNothing removes that limit from states with the ownership invariant. A status patch that changes nothing still moves the version here, so the model may ask for the second request where a server that ignores such patches would not.
- Cascade.Drain: serves one triggered request at a time; the 100 ms delay before each is not modelled.
- Confluence.WorklistConfluence: leaves out requests on terminating classes, whose ideal meaning depends on a status that no view fixes; Queues.DrainConfluence compares the triggered requests as multisets.
- Refusals.RetryConvergesIff: one namespace reconcile, and no namespace vanishes meanwhile.
- Controller.SetClassAnnotations: does not hold the per-namespace mutex; AnnotationSwap models it with all interleavings.
- Controller.UpdateCurrentClassAnnotation: does not hold the per-namespace mutex; AnnotationSwap models it with all interleavings.
- Outcomes.CalmNamespaceOutcome: does not say which error a rejected entry gives.
- Agreement.StatusAgreesWithAnnotations: does not cover specs that fail to apply, whose switches the code does not record, or a namespace re-created under a name some status still reports.
- Refinement.ApplyLoopIs: an entry that the server does not take stands for every rejection; admission and field validation are not modelled.
- Adding the finalizer (`ensureFinalizerPresent`): `Reconcile` calls the finalizer code only for terminating classes, so it is never reached; finalizers are part of the starting state.
- The informer cache: outside `AnnotationSwap` reads are current.
- No-op writes: every accepted write takes a new resource version.
- Users editing in the middle of a request: between two calls of one request only deletion marks and removals happen.
- Cluster-scoped manifests, one object served under two groups, finalizers of objects, object deletion that takes time.
- JSON decoding of manifests: an entry is a manifest or unreadable.
- The requests mapped from class and owned-object events: they add class or namespace names to the worklist, over which the results quantify.
- Creating watches (`createWatchForGVK`, `normalizeName`): a registration succeeds or fails by an arbitrary function of the attempt.
- Logging, capacity estimates, the condition timestamps in the status, wiring, deployment and generated code.
