# wasmCloud operator: a verified model

The wasmCloud operator runs wasmCloud hosts in Kubernetes and keeps one Kubernetes `Service` per
deployed application that serves HTTP. This project models the parts of it that hold state or do
non-trivial rewriting, in Dafny, and proves what they guarantee. `dafny verify dfyconfig.toml` checks
everything.

## How the pieces fit

**Services.** Every lattice that some host configuration belongs to has a *watcher*, kept in a map
behind a read-write lock. A watcher knows the namespaces to serve and has spawned an *event task*,
which owns a copy of the watcher. Event tasks, calls to `reconcile_services` and calls to `stop_watch`
put commands on one queue; one worker takes them off and calls the Kubernetes API.

- `Manifests.dfy` reads a manifest: which http server, on which address, on hosts with which labels.
- `Watchers.dfy` is the transition system of locks, calls, tasks, tokens, queue and worker. `watch` and
  `reconcile_services` take several steps because they wait for answers while they hold the lock.
- `WatcherRuns.dfy` holds what is true of every run: lock discipline, registry, tasks and tokens,
  snapshots, and that removals and reconcile upserts are ordered by the lock.
- `ServiceWatchers.dfy` is the same watcher as an object with methods, and shows that each whole call is
  a sequence of steps of the transition system.
- `Clusters.dfy` says what each command makes of the cluster when any API call may fail; `Workers.dfy` is
  the worker as a class with loops, proved equal to it.
- `WorkerRuns.dfy` (one command) and `QueueSemantics.dfy` (whole queues) hold the properties: footprint
  under failures, last writer, redelivery, interleaving. Those about queues name, service by service, the
  calls that must succeed (`QueueSemantics.CallsSuffice`): those of the last command that covers the
  service, or of all that cover it if it was somebody else's. Any other call may fail.
- `Endpoints.dfy` is about the endpoint slice of a service without host labels: which pods it is made
  from; `Slices.dfy` says which address stands where in it.
- `CleanupRuns.dfy` joins the two halves: what a stop or a reconcile guarantees about the cluster, when
  exactly a stop fails to clean up, and runs showing what a stop does besides.
- `ServiceOrigins.dfy` says, over runs, which published manifest a service in the cluster comes from.
- `ConfigRuns.dfy` puts the host configurations behind the calls: which of them keep a pair registered.

**Patching an application.** `MergePatch.dfy` is JSON with the merge of section 2 of RFC 7396;
`PatchPipeline.dfy` is the pipeline of `patch_application` around it. Both also say path by path what the
result holds.

**Wiring.** `HostConfigs.dfy` is the host configuration, `Labels.dfy` labels and selectors,
`PodTemplates.dfy` certificate volumes, mounts and arguments, `PodContents.dfy` what a pod holds, spelled
out, and `Listings.dfy` the loops that list applications and connect to a lattice.

## What is taken as given

- An API call that fails changes nothing. A successful server-side apply replaces the object; a delete
  removes an object that has no finalizers. Nobody else writes the services of the model. These are the
  operator's own assumptions about the cluster, made explicit in `Clusters.dfy`.
- Which calls fail, what listings answer and in which order hash sets and listings are walked are
  parameters (`Clusters.Api`), free at every single call. Properties that speak of whole queues say which
  of the calls must succeed.
- How an address is parsed is a parameter (`Watchers.Setup`); a port is a number below 65536.
- Sending on the queue succeeds: the worker keeps the receiving end for as long as the process lives.

## What turned out not to hold

- "A stop_watch cleans its namespace." It does not, for two reasons. Event tasks keep the namespace their
  watcher was created for (src/services.rs:104), whatever `watch` and `stop_watch` do later, and see their
  cancellation only some time after it; so the order the lock gives to removals and reconcile upserts does
  not extend to them. And a stop for a lattice that is not watched, as after a restart of the operator,
  sends no removal at all (src/services.rs:365).
  - `CleanupRuns.StaysCleanIff` says, from the state right after any stop, when no continuation can upsert
    into the namespace.
  - `CleanupRuns.SurvivesStopIff` says, for any stop, which managed services of the namespace are there once
    the queue is drained. `CleanupRuns.CleanupFailsIff` does so for a namespace that is then registered
    nowhere and not watched again: a service is left for exactly these two reasons.
  - `CleanupRuns.StoppedNamespaceIsStillServed` is a run in which a namespace that has stopped gets a service
    and a registered one does not; `ConfigRuns.UnwatchedStopLeavesService` and `ConfigRuns.StopAfterRestart` are
    runs in which the last configuration goes and a service stays for good.
- "Event commands go to the registered namespaces." `CleanupRuns.EventCommandIsCurrentIff` says exactly
  when they go to a registered one, and when they miss none.
- "Every watched lattice has a live task." Its entry stays when the event loop ends:
  `WatcherRuns.EntryHasTaskIff` says the task runs exactly until then; `CleanupRuns.EntryWithoutTask` is
  such a run.
- "A stop_watch removes the services of its lattice." It removes those of every lattice in the namespace
  (src/services.rs:675-688): `CleanupRuns.StopRemovesOtherLattice` is a run in which a lattice that is still
  registered and has a running task loses its service; `CleanupRuns.SurvivesStopIff` says exactly which
  services are there after a stop, whichever lattice they belong to.
- "An active host configuration keeps its pair registered." Pairs are not counted: deleting one
  configuration unregisters the pair of every other with the same lattice and namespace, and removes its
  services. `ConfigRuns.ActiveButUnregisteredIff` says exactly when an active configuration is without its
  pair; `ConfigRuns.SharedPairLosesService` is a run.
- "The service is that of the manifest published last." A manifest without a usable http server sends
  nothing (src/services.rs:186): `ServiceOrigins.ManagedIffOrigin` and `ServiceOrigins.ServiceOfOrigin` say which
  manifest the service comes from; `ServiceOrigins.OldServiceRemains` is a run.
- README.md:160-162 of the operator promises that host labels on a `daemonscaler` are honoured. The
  code collects labels from the first trait of type `link` alone (src/services.rs:599-643).
  `Manifests.DaemonscalersHonouredIff` proves for which manifests the promise is kept; where links are links
  these are the ones whose daemonscalers require no label (`Manifests.DaemonscalerLabelsAreIgnored`);
  `Manifests.LabelledManifestSelectsAllHosts` gives manifests that break it.
- Volume names of the host pods can clash (`PodTemplates.ClashingVolumes`), and a certificate volume of
  the pod can stay unmounted (`PodTemplates.UnmountedVolume`): `PodTemplates.VolumeNamesUniqueIff` and
  `PodTemplates.UnmountedVolumeIff` say exactly when.
- The patch comment names RFC 7386 (src/resources/application.rs:620); the model follows its successor,
  RFC 7396, whose merge is the same.

## Model

| member | source | states |
|---|---|---|
| MergePatch.MergeInPlace | src/resources/application.rs:658-659 | the procedure of section 2 of RFC 7396, members of the patch taken one at a time in any order, gives the member-wise merge |
| MergePatch.MergeIffByPath | src/resources/application.rs:658-659 | the merge is the one document that holds, at every path of keys, exactly the patch's value where that is not an object, an object where it is one, nothing where the patch has null or cuts the path off, and elsewhere what the target held |
| MergePatch.MergeIdempotent | src/resources/application.rs:659 | merging the same patch a second time changes nothing, for every target and patch |
| MergePatch.MergeKeepsNullFree | src/resources/application.rs:659 | an object patch never leaves a null member along object paths of a target that had none |
| PatchPipeline.PatchApplication | src/resources/application.rs:619-673 | the in-place edits of the handler, in order, compute the pipeline function for every JSON document and patch |
| PatchPipeline.PipelineIffByPath | src/resources/application.rs:619-673 | the deployed manifest is the one document that does so with the fetched one stripped of its version and last-applied annotations, except that a fetched last-applied annotation stands as it was |
| PatchPipeline.MergeAtMember | src/resources/application.rs:659 | a merge acts on each member separately; null in the patch removes, everything the patch does not name stays |
| PatchPipeline.StripBeforeMerge | src/resources/application.rs:626-659 | removing the two special annotations before the merge does not show once they are removed after it |
| PatchPipeline.PipelineIsMergePatch | src/resources/application.rs:626-673 | up to the last-applied and version annotations the result is the RFC 7396 merge of the fetched manifest and the patch |
| PatchPipeline.MergeAfterStripRestores | src/resources/application.rs:626-659 | stripping a merged document and merging the same patch again restores it, special annotations included |
| PatchPipeline.PipelineIdempotent | src/resources/application.rs:619-673 | sending the same patch twice deploys what sending it once deploys |
| PatchPipeline.SpecialAnnotations | src/resources/application.rs:628-673 | the deployed version annotation comes from the patch alone; the last-applied one is the fetched one if there was one, even against the patch, else from the patch alone |
| PatchPipeline.AnnotationsSurvive | src/resources/application.rs:628-673 | the deployed manifest has an annotations object exactly when the plain merge has one |
| PatchPipeline.PipelineKeepsNullFree | src/resources/application.rs:626-673 | an object patch never brings a null member into a manifest |
| Labels.BuildPodLabels | src/controller.rs:745-757 | the label-building steps give own labels, common labels and every host label under its prefixed key |
| Labels.InsertHostLabels | src/controller.rs:748-755 | the loop inserts each host label under its prefixed key, in any order, and touches nothing else |
| Labels.PodLabelsByKey | src/controller.rs:745-757 | the value of every label key of a configuration's pods |
| Labels.ServiceSelectorByKey | src/services.rs:392-403 | the value of every key of the selector of an application's service |
| Labels.ServiceLabelsByKey | src/controller.rs:912-921 | the value of every label key of an application's service and of the service of the hosts |
| Labels.SelectorsByKey | src/controller.rs:760-767 | the keys and values by which pods of a deployment, pods for a slice and managed services are found |
| Labels.MatchesByKey | src/services.rs:676-679 | a selector accepts labels iff they hold the same value under each of its keys |
| Labels.SelectorFindsOwnPods | src/controller.rs:732-767 | a workload's selector accepts the pods of a configuration exactly if the names are equal |
| Labels.HostLabelSelection | src/services.rs:394-403 | a service with host labels selects the pods of a configuration exactly if the wanted labels are among the configuration's |
| Labels.ManagedBySelection | src/services.rs:387-391 | the listing of delete_services finds exactly what is labelled managed-by wadm-operator: every application service and never the service of the hosts |
| Labels.InstanceSelection | src/services.rs:461-466 | the pod listing of an endpoint slice finds the pods of the configuration of that name and no others |
| Manifests.HttpServerComponent | src/services.rs:562-650 | the filters and nested loops compute the extraction function |
| Manifests.ExtractionMeetsSpec | src/services.rs:562-650 | a service is wanted iff some http server has a daemonscaler and some http server's first link-typed trait gives an address; address and labels are those given last |
| Manifests.OnlyHttpServersCount | src/services.rs:562-576 | dropping every component that is not a capability with an http server image changes nothing, whatever traits it has |
| Manifests.NoHttpServerNoService | src/services.rs:562-597 | a manifest without such a component yields no service |
| Manifests.AddressIsLast | src/services.rs:613-631 | the address is the one given at the last position, over servers in order and their configurations in order, that gives any |
| Manifests.LabelIsLast | src/services.rs:632-641 | each label has the value of the last position that requires its key, and there is no label nobody requires |
| Manifests.DaemonscalersHonouredIff | src/services.rs:599-643 | what daemonscalers require is what the service selects by iff, for every required key, it is also what the first link-typed traits of the http servers require last |
| Manifests.LabelledManifestSelectsAllHosts | README.md:160-162 | for every label and address, a manifest whose daemonscaler requires the label yields a service without it |
| ServiceWatchers.ServiceWatcher.constructor | src/services.rs:265-269 | a new service watcher watches nothing and has sent nothing |
| WatcherRuns.TokenCancelledIff | src/services.rs:79-83 | a token is cancelled iff a stop_watch dropped the entry that carried it or its task's event loop ended |
| ServiceWatchers.ServiceWatcher.NewWatcher | src/services.rs:87-117 | the watcher serves one namespace, its token is uncancelled and no entry has it, and its task owns an equal copy |
| ServiceWatchers.ServiceWatcher.EndTask | src/services.rs:105-114 | the end of a task stops it and cancels its own token, and keeps entries, tasks and tokens consistent |
| ServiceWatchers.ServiceWatcher.HandleManifestPublished | src/services.rs:182-207 | an upsert is sent iff the manifest has a usable http server with a readable address |
| ServiceWatchers.ServiceWatcher.HandleManifestUnpublished | src/services.rs:209-217 | a removal of that name is sent for the namespaces of the watcher |
| ServiceWatchers.ServiceWatcher.Watch | src/services.rs:299-360 | a watched lattice gains the namespace; otherwise a watcher is installed iff stream and consumer could be had |
| ServiceWatchers.ServiceWatcher.StopWatching | src/services.rs:363-378 | the namespace leaves its watcher, the last one takes watcher and token with it, and a removal is sent iff the lattice was watched |
| ServiceWatchers.ServiceWatcher.ReconcileServices | src/services.rs:274-295 | deployed applications whose manifest could be fetched are published in order, the others skipped |
| ServiceWatchers.ReconcilePublishesAll | src/services.rs:279-291 | a reconcile call sends, in order and one for one, an upsert for each deployed application whose manifest could be fetched and is usable, to the watcher's namespaces and lattice |
| ServiceWatchers.WatchIsSteps | src/services.rs:299-360 | a whole watch call is a sequence of enabled steps of the transition system that leaves the lock free |
| ServiceWatchers.ReconcileIsSteps | src/services.rs:274-295 | a whole reconcile call is a sequence of enabled steps that leaves the lock as it was |
| WatcherRuns.InvAlways | src/services.rs:224-228 | in every reachable state lock, calls, entries, tasks, tokens and cluster fit together |
| WatcherRuns.WriterIsAlone | src/services.rs:302 | a watch call waiting for its stream or consumer is the only call that holds the lock |
| WatcherRuns.GrowsAlways | src/services.rs:94-113 | over any stretch of a run commands stay sent, tokens stay cancelled, stopped tasks stay stopped and no task's copy changes |
| WatcherRuns.RegistryRefinement | src/services.rs:299-378 | a pair of lattice and namespace is registered iff a watch call for it has succeeded and no stop_watch for it has run since |
| WatcherRuns.EntriesAreWellFormed | src/services.rs:302-306 | a lattice has an entry iff some namespace is registered for it, and the entry is the lattice's own |
| WatcherRuns.OneWatcherPerLattice | src/services.rs:299-359 | between two creations of watchers for one lattice a stop_watch has dropped the first |
| WatcherRuns.ReconcileUsesCurrentNamespaces | src/services.rs:275-288 | a reconcile call sends upserts to exactly the namespaces registered for its lattice at that moment |
| WatcherRuns.LockOrderedCleanup | src/services.rs:274-376 | after stop_watch for a pair no reconcile call of the lattice, even one begun before, upserts into the namespace until watch succeeds for the pair again |
| WatcherRuns.UncancelledTasks | src/services.rs:79-117 | an uncancelled task runs, its lattice's entry carries its token, and no lattice has two of them |
| WatcherRuns.EntryHasTaskIff | src/services.rs:105-114 | the task of a watched lattice runs iff its event loop has not ended of itself |
| WatcherRuns.CancelsExactly | src/services.rs:363-369 | a stop_watch that drops an entry cancels exactly that entry's token, an ending task its own, and nothing else cancels |
| WatcherRuns.StoppedTasksAreSilent | src/services.rs:105-114 | a task that has seen its cancellation or has ended never sends again |
| WatcherRuns.TaskBirth | src/services.rs:94-104 | every task stems from one successful watch call and holds that call's namespace alone, for ever |
| WatcherRuns.EventCommandsUseSnapshot | src/services.rs:190-214 | every command of an event task goes to the namespace of the watch call that created it |
| WatcherRuns.SnapshotStaysCurrent | src/services.rs:302-306 | snapshot and registered namespaces agree while the watcher lives if all its watch calls were for one namespace |
| Workers.Worker.CreateOrUpdateService | src/services.rs:382-553 | applies the service namespace by namespace and stops at the first failing call, endpoint calls included |
| Workers.Worker.ApplyService | src/services.rs:438-548 | one namespace: apply, then endpoints only without host labels |
| Workers.Worker.BuildService | src/services.rs:387-430 | the labels, selector, port and finalizer of the applied service |
| Workers.Worker.CreateEndpoints | src/services.rs:450-548 | lists configurations, lists the pods of those in the lattice, and applies a slice only if there are addresses |
| Workers.Worker.DeleteService | src/services.rs:653-673 | get, apply without finalizers, delete; each call may fail and a missing service is a failure |
| Workers.Worker.DeleteServices | src/services.rs:675-688 | deletes the managed services of the namespace in listing order up to the first failure |
| Workers.Worker.Handle | src/services.rs:236-260 | one command; a failing namespace of a removal does not stop the others |
| Workers.Worker.Run | src/services.rs:235-263 | the worker loop processes every command received, in order, whatever fails |
| WorkerRuns.UpsertInPrefix | src/services.rs:408-448 | under any failures exactly a prefix of the namespaces has the new service, all of them if no call failed |
| WorkerRuns.UpsertStopsAtFailure | src/services.rs:408-548 | an upsert makes no call after one that failed, be it for a service, a listing or a slice |
| WorkerRuns.DeleteManagedPrefix | src/services.rs:675-688 | under any failures exactly a prefix of the listed services is gone, the next may have lost its finalizers, nothing else changed |
| WorkerRuns.DeleteManagedStopsAtFailure | src/services.rs:675-688 | the removal of the services of one namespace makes no call after one that failed |
| WorkerRuns.RemovalGoesOn | src/services.rs:244-250 | the removal of an application comes to every namespace whatever fails elsewhere, and succeeds there if its calls do |
| WorkerRuns.CleanupGoesOn | src/services.rs:252-258 | so does the removal of the services of several namespaces |
| WorkerRuns.ProcessFootprint | src/services.rs:236-260 | under any failures a command changes only services it covers, each to its target, its old state or, for removals, without finalizers; without failures to its target |
| QueueSemantics.ServiceOfUpsert | src/services.rs:387-430 | the upserted service is managed, has name, port and finalizer, and selects exactly the configurations with the wanted host labels |
| QueueSemantics.ServiceByKey | src/services.rs:387-430 | port, finalizer and the value of every label and selector key of the upserted service |
| QueueSemantics.RemovesOperatorsOnly | src/services.rs:675-688 | RemoveServices removes from its namespaces exactly the services whose managed-by label has the operator's value and leaves every other service as it was |
| QueueSemantics.OthersSurvive | src/services.rs:675-682 | a service managed by somebody else survives every queue of RemoveServices, whatever fails |
| QueueSemantics.HostServiceSurvives | src/controller.rs:912-921 | so does the service of the hosts |
| QueueSemantics.UncoveredIsKept | src/services.rs:235-263 | a service no command covers is as it was, whatever fails |
| QueueSemantics.LastWriterDecides | src/services.rs:235-263 | if the calls of the last command covering a service succeed, the service is managed iff that command is an upsert (or none covers it and it was), and is the service of that upsert, whatever failed before and after |
| QueueSemantics.DrainSettles | src/services.rs:235-263 | if the calls a service depends on succeed, it ends as if no call at all had failed |
| QueueSemantics.RedeliveryIsSafe | src/services.rs:120-145 | delivering any block of commands twice in a row leaves a service as delivering it once, within any queue, if the calls the service depends on succeed, whatever others fail |
| QueueSemantics.RedeliveryChangesNothing | src/services.rs:120-145 | without failures, redelivering a block changes no service in the cluster |
| QueueSemantics.NamespaceIndependence | src/services.rs:236-263 | a service depends only on the commands for its namespace, in their order, and on the calls that must succeed for it |
| QueueSemantics.InterleavingIndependence | src/services.rs:236-263 | queues with the same commands for each namespace in the same order leave the same services, producers sharing namespaces or not |
| QueueSemantics.DisjointProducers | src/services.rs:236-263 | two producers with no namespace in common: every interleaving of their commands gives the same services |
| Slices.EndpointsAreExact | src/services.rs:450-548 | after a successful upsert the slice of each namespace holds, one for one and in reading order, the addresses of the running pods, as listed while the command ran, of the namespace's configurations in the lattice, with the service's port and labels, no pod twice when names are distinct; without any entry the slice stays |
| Endpoints.EndpointsFollowWalk | src/services.rs:450-483 | those entries are met on the one walk over configurations and pods that the listings allow |
| Endpoints.HostPodsOnWalk | src/controller.rs:745-767 | a pod made for a configuration is counted exactly where that configuration was listed, if it is in the lattice |
| Endpoints.NoPodTwice | src/services.rs:459-483 | with distinct configuration names no pod is met twice, unless it changes labels between two listings |
| Endpoints.WalkIsUnique | src/services.rs:459-483 | the order and contents required of the addresses leave no choice |
| Endpoints.SliceFootprint | src/services.rs:236-260 | under any failures removals touch no endpoint slice, and an upsert at most those of its name in its namespaces, only without host labels and only with some address |
| CleanupRuns.ClusterFollowsQueue | src/services.rs:235-263 | in every reachable state the cluster is what draining the processed commands gives |
| CleanupRuns.NoUpsertIntoAbandoned | src/services.rs:274-376 | nothing upserts into a namespace that is registered nowhere, carried by no running task and not watched again |
| CleanupRuns.StaysCleanIff | src/services.rs:363-376 | right after a stop_watch, no continuation of the run upserts into the namespace before it is watched again iff no lattice registers it and no running task carries it |
| CleanupRuns.CleanupReachesCluster | src/services.rs:363-376 | after a stop_watch of a watched lattice that leaves the namespace registered nowhere, the drained cluster has no managed service there, if the removal's calls succeed, nobody watches it again and no old event task publishes into it, whatever else fails or is in progress |
| CleanupRuns.SurvivesStopIff | src/services.rs:363-376 | after any stop_watch, of a watched lattice or not, a managed service of the namespace, of whichever lattice, is in the drained cluster iff the last command covering it is an upsert sent after the stop, or the lattice was not watched, nothing later covers the service and it was there; of later commands only the calls of the last covering one must succeed |
| CleanupRuns.CleanupFailsIff | src/services.rs:363-376 | after any stop_watch, in a namespace then registered nowhere and not watched again, a managed service is left iff the last command covering it was published after the stop by an event task created for the namespace before, or the lattice was not watched, so that nothing was sent, and the service was there; the calls of the last covering command sent since must succeed |
| CleanupRuns.ReconcileReachesCluster | src/services.rs:272-295 | an upsert sent by a reconcile call is in the drained cluster in every namespace then registered, if its calls succeed and nothing covers it later |
| CleanupRuns.EventCommandIsCurrentIff | src/services.rs:190-214 | a command of an event task goes to a registered namespace iff the task's creation namespace was watched after it was last stopped, and misses none iff every other watched namespace was stopped later |
| CleanupRuns.StoppedNamespaceIsStillServed | src/services.rs:104 | a run in which an event task serves a stopped namespace and misses a registered one, and the stopped namespace ends with a managed service |
| CleanupRuns.StopRemovesOtherLattice | src/services.rs:675-688 | a run in which stopping one lattice removes the service of another that stays registered in the namespace |
| CleanupRuns.EntryWithoutTask | src/services.rs:110-112 | a run after which a lattice is registered but every task has ended |
| ServiceOrigins.DecidesIffSends | src/services.rs:182-217 | a step sends a command covering a service iff it publishes a usable manifest of the application, unpublishes it or stops a watched lattice, for the service's namespace; publishing an unusable manifest sends nothing |
| ServiceOrigins.ManagedIffOrigin | src/services.rs:182-207 | a managed service is in the drained cluster iff a usable manifest was published for it and nothing has decided over it since, or nothing ever did and it was there from the start, if the calls of the last covering command succeed |
| ServiceOrigins.ServiceOfOrigin | src/services.rs:182-207 | it then is the service that manifest asks for, whatever unusable manifests were published later |
| ServiceOrigins.OldServiceRemains | src/services.rs:186 | a run in which an application is published again without a usable http server and keeps its old service |
| ConfigRuns.RegisteredIffReconciled | src/controller.rs:211-249 | a pair is registered iff some host configuration of the pair was reconciled and none of the pair was cleaned up since |
| ConfigRuns.ActiveButUnregisteredIff | src/controller.rs:228-249 | an active configuration is without its pair iff another of the same pair was cleaned up and none of the pair was reconciled since |
| ConfigRuns.SharedPairLosesService | src/controller.rs:240-249 | a run in which deleting one of two configurations of a pair removes the service while the other is active |
| ConfigRuns.UnwatchedStopLeavesService | src/services.rs:363-378 | a run in which the last configuration's stop_watch finds the lattice unwatched and a service stays with no configuration and no running task left |
| ConfigRuns.StopAfterRestart | src/services.rs:265-269 | a stop_watch right after a restart leaves every managed service of the namespace |
| PodTemplates.FilterCertificates | src/controller.rs:649-655 | keeps the keys that end in .crt, in order |
| PodTemplates.CertificatesByPosition | src/controller.rs:638-680 | the certificates found are those at exactly the positions of keys ending in .crt, in order |
| PodTemplates.WireCertificates | src/controller.rs:434-529 | the certificate loop with its early returns and continues adds what each authority contributes, in order |
| PodTemplates.AppendCaArgs | src/controller.rs:524-527 | one pair of option and path for each certificate, behind the arguments so far |
| PodTemplates.BuildPodTemplate | src/controller.rs:417-634 | volumes, mounts and arguments of the pod, with credentials and overrides behind the certificates |
| PodContents.AuthorityAdds | src/controller.rs:441-528 | which volumes with which sources an authority adds, when it gets a mount and which certificates then count |
| PodTemplates.WireFailsIff | src/controller.rs:448-501 | the template fails iff some authority does, with the error of the first that does |
| PodContents.ErrorsAreExact | src/controller.rs:448-501 | with which error the template fails: that of the first authority without source, without name or with an unreadable source it needs |
| PodTemplates.CertificateWiring | src/controller.rs:417-548 | every mount names a volume of the pod; the arguments are the earlier ones and then pairs for certificate files, each under a mount and at least one under each certificate mount |
| PodContents.VolumesAreExact | src/controller.rs:417-634 | the volumes of the pod with their sources: nats configuration, for each authority its secret if that has certificates and its config map if that is reached and has some, credentials, overrides, and nothing else |
| PodContents.MountsAreExact | src/controller.rs:512-548 | the mounts of both containers with names and paths, one for each authority whose sources all have certificates, in order |
| PodContents.ArgumentsAreExact | src/controller.rs:524-527 | behind the earlier arguments stands, for each mounted certificate in order, the option and behind it the path |
| PodTemplates.UnmountedVolumeIff | src/controller.rs:476-505 | a certificate volume of the pod has no mount of its name iff some authority of that name has certificates in its secret and a config map without any, and none of that name gets a mount |
| PodTemplates.UnmountedVolume | src/controller.rs:476-505 | a configuration whose pod has a volume nothing mounts |
| PodTemplates.VolumeNamesUniqueIff | src/controller.rs:417-632 | volume names are unique iff no authority has certificates in two sources, those adding volumes have different names, and the overrides add no clashing name |
| PodTemplates.ClashingVolumes | src/controller.rs:462-510 | a configuration whose pod has two volumes of one name |
| Listings.ListApplications | src/resources/application.rs:359-384 | the loop with its set of lattices asks the first configuration of each lattice in order, up to the first failure |
| Listings.ApplicationsByPosition | src/resources/application.rs:359-384 | a listing that succeeds holds the answers for the first configuration of each lattice, complete and in order |
| Listings.EachLatticeOnce | src/resources/application.rs:421-445 | each lattice is asked once, through its first configuration, and none is left out |
| Listings.ListingFailsIff | src/resources/application.rs:370-380 | the listing fails iff the first configuration of some lattice cannot be asked |
| Listings.ListingErrorIff | src/resources/application.rs:370-380 | a listing that fails fails with the error of the first lattice that cannot be asked |
| Listings.ListingIgnoresOrder | src/resources/application.rs:359-384 | if answers depend on the lattice alone, the order of configurations shows neither in the applications nor in whether it fails |
| Listings.LatticeConnection | src/resources/application.rs:727-755 | the lattice of the first named configuration that connects, or an error iff none does |

## Left out

- Connecting to NATS, streams and consumers: they succeed or fail as the run says; credentials are not looked at.
- Decoding of cloud events and manifests, and the HTTP request and response types around the handlers; the types of wadm manifests are not part of the repository and are modelled with the fields the code reads.
- Server-side apply beyond replacing the object: field managers, conflicts, managed fields, and writers other than the operator.
- Owner references: the slice's reference to its service carries an identifier the model does not have.
- WatcherRuns.LockOrderedCleanup: speaks of reconcile calls only, because event tasks do not take the lock and the statement is false of them.
- QueueSemantics.RedeliveryIsSafe: speaks of services, not of endpoint slices, which depend on the pods that run at the time; and where the last call a service depends on fails, the service may be in any state WorkerRuns.ProcessFootprint allows.
- ServiceWatchers.ServiceWatcher.Watch: takes the answers of NATS as parameters and runs to completion; interleaving is in the transition system.
- ServiceWatchers.ServiceWatcher.ReconcileServices: takes the fetched manifests as a parameter, one answer for each application.
- A panic of the worker on an object without a name or owner identity; the API server always sets both.
- Fairness of the lock and progress: the properties are about what may happen, not that it does.
- Merging of container additions into the two containers, environment variables, observability arguments, images and resources: field-by-field copies without state.
- Roles, service accounts, config map rendering and registry credentials.
- The map of NATS credentials: one insertion and one removal by key.
- Routing, discovery, OpenAPI, table output and start-up.
