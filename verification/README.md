# way-balancer control plane: a verified model

way-balancer is a load balancer with a control plane of its own. This project models the parts of that
control plane that are state machines over maps and sequences, and proves what they keep over whole runs:

- **Leader lease and reconcile queue.** Replicas of the Kubernetes controller evaluate one shared lease
  record. `LeaseProtocol` is the step system of many replicas, a shared clock and lost renewals, and proves
  exactly when at most one may write. `ReconcileQueue` proves that no submitted work is lost, and
  `PipelineRetry` what a retried reconcile sees.
- **EndpointSlice controller.** Incremental maintenance of service endpoints against full recomputation,
  arrival order, and the second path that builds discovery snapshots.
- **Snapshot compiler, diff, registry and durable state.** Compile and decompile, exact diffs and impact,
  the two mutually inverse registry indexes, backup and durable round trips.
- **Rollout, promotion and fleet.** A dataplane's known-good list and rollback, the promotion gate, the
  halting fleet rollout, wave plans, gates, decisions, automatic rollback and status, up to the canary
  rollout of a listener end to end.
- **Small exact cores.** Cache fan-out with capped backoff, hexadecimal codec, full-scan authentication.

Objects the program updates in place are classes whose methods are proved against specification functions;
the properties are lemmas about those functions. Time, randomness, hooks, signatures and the network come in
as arguments: `Oracle` is any fleet, `Peers` any set of cache peers, `Hook` any activation hook, `Verifier` any
signature check, `clock` any sequence of readings.

## What the proofs found

Where a property one would expect does not hold, the project proves the exact condition under which it does,
and in most cases a concrete run or input on which it fails.

- The accepted lease timings do not imply mutual exclusion: replicas that evaluate once per retry period
  exclude each other if and only if the period is at most lease duration minus renew deadline.
- A replica that misses one renew deadline while holding the lease can write again if and only if there is a second
  replica to take the lease over; a single replica stays fenced for good.
- A slice that changes service leaves its endpoints in the service it left. No flush repairs it until an accepted
  update or a deletion marks that service again.
- Replacing the resources discards the maintained endpoints of every service that is not pending. The controller
  replaces them before every reconcile, and a flush clears the marks: when a backend failure is retried, the retry
  goes without the endpoints the failed reconcile had, unless a slice update marks the service again.
- A snapshot with a discovery-backed cluster cannot be restored from its view, so neither can a durable state
  that contains one.
- A promotion previews the trimmed version but rolls out the version as given, and both can be published.
- The change impact looks at listeners, routes and clusters only, so a change of security settings or policies is
  promoted without acknowledgement.
- The rollback mode for failed gates never acts, because an evaluated gate fails only by timing out.
- After a rollout that any node accepted, the automatic rollback does not return the fleet to the previous
  version: nodes call good what they last applied, so it either sends the new version again or is refused.
  A canary that every node accepted then reports itself rolled back, with its own version as the target.
  `docs/admin-api.md:274` says only that it targets the shared last-known-good version; the model follows the code.
- The divergence-budget flag compares the start of a rollout with its own deadline and is practically never set.
- A canary that is to be rolled back, on a fleet that shares no published last-known-good version, answers that error
  and leaves the fleet and its history changed.
- The status of a staged rollout flags nodes by fixed thresholds, which agree with the gate that decided if and only if
  its policy is 95 percent ready and 5 percent errors.
- A service whose slices repeat a live endpoint id is listed differently by flushes and by discovery snapshots.
- A canary rollout gives every wave a gate, so its status never shows a wave as pending or blocked; and listener
  names of 58 to 128 bytes pass the name check but never the wave plan.

## Assumptions

- The digest and the fingerprints of resources are injective where a lemma says so (`InjectiveDigest`,
  `Faithful`); durable text is lossless (`Lossless`); UTF-8 is injective (`Injective`).
- The remaining validation rules, the route-rule and cluster compilers and the signature check are arbitrary
  functions.
- Lease writes are atomic with recording or relinquishing them, and renewals may be lost.
- Reads of a fleet's nodes agree until the next change is requested, as the backend interface suggests by
  giving reads a shared and changes an exclusive reference.
- `RolloutSafety` assumes that every apply goes through the coordinator.

## Model

| member | source | states |
|---|---|---|
| `LeaderElection.LeadershipCoordinator.Evaluate` | binaries/lb-k8s-controller/src/main.rs:427-484 | an evaluation takes the state and action of the evaluation function and changes nothing else |
| `LeaderElection.LeadershipCoordinator.RecordAcquired` | binaries/lb-k8s-controller/src/main.rs:486-488 | recording an acquisition makes the replica leader under its own identity |
| `LeaderElection.LeadershipCoordinator.BeginRelinquish` | binaries/lb-k8s-controller/src/main.rs:490-503 | a leader, or a replica already stepping down, becomes relinquishing and asks for a release; any other state is kept |
| `LeaderElection.EvaluationMeaning` | binaries/lb-k8s-controller/src/main.rs:427-484 | when each action results, said without the branches: renew exactly the own record within the own deadline, acquire exactly a claimable lease, fence exactly a late holder or a leader without the lease; writes allowed exactly after renewing |
| `LeaderElection.FenceIsSticky` | binaries/lb-k8s-controller/src/main.rs:427-484 | once fenced on a record it holds, every later evaluation of that record fences again, whatever the state in between |
| `LeaseProtocol.WriterBlocksAcquire` | binaries/lb-k8s-controller/src/main.rs:388-393 | while a timely writer exists no other replica finds the lease claimable, even if every renewal was lost |
| `LeaseProtocol.StepKeepsInv` | binaries/lb-k8s-controller/src/main.rs:427-503 | every step of clock, evaluation, acquire, renew, release or restart keeps "a writer holds the record, evaluated within its deadline" |
| `LeaseProtocol.MutualExclusion` | binaries/lb-k8s-controller/src/main.rs:388-503 | over every run of any number of replicas that re-evaluate within lease duration minus renew deadline, at most one is write-allowed |
| `LeaseProtocol.SlackIsNeeded` | binaries/lb-k8s-controller/src/main.rs:388-503 | for any pair of replicas a run with two writers exists as soon as one may be a millisecond later than that |
| `LeaseProtocol.ExclusionExactly` | binaries/lb-k8s-controller/src/main.rs:388-503 | exclusion over all runs holds if and only if every replica re-evaluates within its slack |
| `LeaseProtocol.RetryPeriodExclusionExactly` | binaries/lb-k8s-controller/src/main.rs:218-227 | replicas evaluating once per retry period exclude each other if and only if that period is at most lease duration minus renew deadline |
| `LeaseProtocol.AcceptedTimingsMayOverlap` | binaries/lb-k8s-controller/src/main.rs:218-227 | a configuration the timing checks accept has a run with two writers; the default one fits the slack |
| `LeaseProtocol.MissedDeadlineFences` | binaries/lb-k8s-controller/src/main.rs:427-484 | evaluating past the deadline of the own record fences the replica |
| `LeaseProtocol.FencedUntilTakenOver` | binaries/lb-k8s-controller/src/main.rs:427-503 | a fenced replica that still holds the lease record stays fenced, over every run in which no other replica acquires the lease |
| `LeaseProtocol.FenceReached` | binaries/lb-k8s-controller/src/main.rs:427-484 | from the start, any replica that may evaluate a millisecond late has a run that ends with it fenced while holding the record |
| `LeaseProtocol.TakeOver` | binaries/lb-k8s-controller/src/main.rs:388-503 | from any such state another replica can come to lead alone, the fenced one unchanged |
| `LeaseProtocol.HandBack` | binaries/lb-k8s-controller/src/main.rs:388-503 | and a leader that releases the lease lets the other replica write again |
| `LeaseProtocol.FencedForeverExactly` | binaries/lb-k8s-controller/src/main.rs:388-503 | from any such state a run in which the replica writes again exists if and only if there are at least two replicas |
| `ReconcileQueue.ReconcileQueue.Enqueue` | binaries/lb-k8s-controller/src/main.rs:298-314 | an enqueue merges with the queued entry of its key as the merge function says |
| `ReconcileQueue.ReconcileQueue.ScheduleRequeue` | binaries/lb-k8s-controller/src/main.rs:316-334 | a requeue is an enqueue at the saturating sum of now and the bounded delay |
| `ReconcileQueue.ReconcileQueue.PopDue` | binaries/lb-k8s-controller/src/main.rs:336-345 | exactly the due entries leave the queue, in key order |
| `ReconcileQueue.RemoveEach` | binaries/lb-k8s-controller/src/main.rs:336-345 | removing keys one by one returns their entries in order and leaves the rest untouched |
| `ReconcileQueue.ControllerRuntime.SubmitReconcile` | binaries/lb-k8s-controller/src/main.rs:557-574 | a submission is queued at the saturating sum of now and the debounce |
| `ReconcileQueue.ControllerRuntime.DriveOnce` | binaries/lb-k8s-controller/src/main.rs:576-606 | nothing happens unless the replica leads; otherwise every due entry is reconciled and the queue is the driven one |
| `ReconcileQueue.ControllerRuntime.ReconcileEach` | binaries/lb-k8s-controller/src/main.rs:576-606 | the loop over popped entries, requeueing failures as they occur, gives the settled queue |
| `ReconcileQueue.EnqueuesCoalesce` | binaries/lb-k8s-controller/src/main.rs:298-314 | between pops a key has the work of the last enqueue reaching the highest generation and the earliest time, in any arrival order |
| `ReconcileQueue.SettleExact` | binaries/lb-k8s-controller/src/main.rs:316-334 | each backend failure is back unchanged but for its time, every other popped entry is gone, other keys are untouched |
| `ReconcileQueue.DriveExact` | binaries/lb-k8s-controller/src/main.rs:576-606 | the same for a whole drive, with the requeue time exactly now plus the bounded delay |
| `ReconcileQueue.DriveOfDueKey` | binaries/lb-k8s-controller/src/main.rs:576-606 | a due key is afterwards queued with the same work or finished |
| `ReconcileQueue.NoWorkIsLost` | binaries/lb-k8s-controller/src/main.rs:557-606 | over every run of submissions and drives each submitted key and generation is covered by a queued entry or a finished one at least as new, and nothing is invented |
| `EndpointSlices.ValidateSlice` | crates/k8s-integration/src/endpoint_slices.rs:326-369 | the validation loop reports the first fault in the source order |
| `EndpointSlices.EndpointSliceController.MarkPending` | crates/k8s-integration/src/endpoint_slices.rs:153-192 | marking counts an update as coalesced exactly when its service was already pending |
| `EndpointSlices.EndpointSliceController.UpsertSlice` | crates/k8s-integration/src/endpoint_slices.rs:153-176 | an upsert rejects, ignores as stale or replaces, with the counters to match |
| `EndpointSlices.EndpointSliceController.DeleteSlice` | crates/k8s-integration/src/endpoint_slices.rs:178-192 | a deletion marks the service of the removed slice and reports whether there was one |
| `EndpointSlices.EndpointSliceController.FlushInto` | crates/k8s-integration/src/endpoint_slices.rs:194-237 | a flush rewrites the pending services it finds and keeps the others pending |
| `EndpointSlices.CurrentEndpoints` | crates/k8s-integration/src/endpoint_slices.rs:204-230 | the scan over all slices in key order, filtered and sorted, is the recomputation of one service |
| `EndpointSlices.GatherService` | crates/k8s-integration/src/endpoint_slices.rs:204-227 | the loop over slices collects the live endpoints of one service in slice order |
| `EndpointSlices.LiveOfSlice` | crates/k8s-integration/src/endpoint_slices.rs:211-225 | the inner loop keeps the ready, serving, non-terminating endpoints that have an address |
| `EndpointSlices.ScanSelectsService` | crates/k8s-integration/src/endpoint_slices.rs:204-210 | filtering the ordered map is the same as ordering the filtered map |
| `EndpointView.RecomputeMeaning` | crates/k8s-integration/src/endpoint_slices.rs:204-230 | a recomputation lists exactly the live endpoints of the current slices of a service, each as often as the slices do, sorted by id |
| `EndpointView.RecomputeFrame` | crates/k8s-integration/src/endpoint_slices.rs:204-230 | a service depends only on its own slices |
| `EndpointView.MovingAwayShortens` | crates/k8s-integration/src/endpoint_slices.rs:153-176 | moving a slice away shortens the endpoints of the service by what the slice contributed |
| `EndpointView.FlushExact` | crates/k8s-integration/src/endpoint_slices.rs:194-237 | a flush rewrites the first service under each pending key, leaves every other service and field alone, and keeps pending exactly the keys without a service |
| `EndpointView.UpsertExactlyWhenSafe` | crates/k8s-integration/src/endpoint_slices.rs:169-175 | an upsert keeps the view exact if and only if it does not move a slice with live endpoints away from a service that is not pending |
| `EndpointStale.UnsafeUpsertSurvives` | crates/k8s-integration/src/endpoint_slices.rs:153-237 | after an unsafe upsert the service that was left shows more endpoints than it has, through every run of operations, flushes included, in which no accepted update or deletion marks it |
| `EndpointStale.StaleUntilMarked` | crates/k8s-integration/src/endpoint_slices.rs:153-237 | any service that shows more endpoints than it has, and is not pending, stays so through every such run |
| `EndpointStale.RepairedExactly` | crates/k8s-integration/src/endpoint_slices.rs:194-237 | one operation and a flush leave such a service so if and only if the operation does not mark it |
| `EndpointStale.MovedSliceExample` | crates/k8s-integration/src/endpoint_slices.rs:169-175 | a concrete run where a slice changes service and its old service keeps showing the endpoint, however often it is flushed |
| `EndpointView.ViewMatchesRecomputation` | crates/k8s-integration/src/endpoint_slices.rs:153-237 | over every run of safe operations the incremental view equals full recomputation outside the pending set, and updates equal coalesced plus pending plus drained |
| `EndpointView.FlushedViewIsExact` | crates/k8s-integration/src/endpoint_slices.rs:153-237 | if slices keep their service, after any run and a flush every service ever touched shows its recomputation or is absent and pending, and a second flush changes nothing |
| `EndpointView.ReplaceThenFlushExactly` | crates/k8s-integration/src/controller_pipeline.rs:91-93 | after resources are replaced, a flush shows the recomputation of a service if and only if it was pending or the new resources already showed it |
| `EndpointView.ReplacedResourcesExample` | crates/k8s-integration/src/controller_pipeline.rs:91-93 | a service with one ready pod, handed in again without endpoints after a flush, shows none at the next flush |
| `PipelineRetry.ReconcileViews` | crates/k8s-integration/src/controller_pipeline.rs:213-217 | reconciling entries one after another flushes the controller into the resources of each |
| `PipelineRetry.ViewShowsExactly` | crates/k8s-integration/src/controller_pipeline.rs:148-217 | in one drive a reconcile sees a service recomputed if and only if it is pending and no earlier entry lists it, or its resources already showed that |
| `PipelineRetry.FailureLeaves` | binaries/lb-k8s-controller/src/main.rs:583-603 | after a backend failure the entry is queued with the resources it came with, and none of its services is pending |
| `PipelineRetry.PendingExactly` | binaries/lb-k8s-controller/src/main.rs:557-606 | over any slice updates, submissions and drives, a service is pending if and only if an event marked it and no later drive listed it, or it was pending at the start and no drive listed it |
| `PipelineRetry.RetryShowsExactly` | binaries/lb-k8s-controller/src/main.rs:557-606 | with any slice updates, submissions and drives between failure and retry that leave the failed work queued, the retry sees a service recomputed if and only if an update in between marked it and neither a drive since nor an earlier entry of its own drive lists it, or the submitted resources already showed that |
| `PipelineRetry.RetryLosesPod` | binaries/lb-k8s-controller/src/main.rs:576-606 | a concrete run: the failed reconcile sees a new pod and its retry does not |
| `EndpointArrival.NewestWins` | crates/k8s-integration/src/endpoint_slices.rs:153-176 | after any arrivals each slice is the newest well-formed one seen |
| `EndpointArrival.PendingIsAdvanced` | crates/k8s-integration/src/endpoint_slices.rs:153-176 | with fixed services, exactly the services of slices that moved forward become pending |
| `EndpointArrival.ArrivalOrderIrrelevant` | crates/k8s-integration/src/endpoint_slices.rs:153-176 | any two deliveries of the same updates, in any order and with repetition, end with the same slices and the same pending set |
| `EndpointArrival.PendingDependsOnOrder` | crates/k8s-integration/src/endpoint_slices.rs:169-175 | when a slice changes service the pending set does depend on the order |
| `EndpointDiscovery.GroupByService` | crates/k8s-integration/src/endpoint_slices.rs:243-251 | grouping the slices lists, per service, its slices in key order |
| `EndpointDiscovery.IndexSlice` | crates/k8s-integration/src/endpoint_slices.rs:265-288 | indexing the live endpoints of a slice by id overlays earlier entries, or reports the first blank id |
| `EndpointDiscovery.ScanSlices` | crates/k8s-integration/src/endpoint_slices.rs:254-289 | the loop over the slices of a service gives its largest generation, last port and id index, or the first blank live id |
| `EndpointDiscovery.BuildOne` | crates/k8s-integration/src/endpoint_slices.rs:254-310 | the snapshot of one service, or its first blank live id |
| `EndpointDiscovery.BuildDiscoverySnapshots` | crates/k8s-integration/src/endpoint_slices.rs:239-313 | all snapshots in service order, or the error of the first service that has one |
| `EndpointDiscovery.FirstBlankMeaning` | crates/k8s-integration/src/endpoint_slices.rs:274-288 | the reported id is the first blank one, and there is none if and only if every id is valid |
| `EndpointDiscovery.BuildSucceedsExactly` | crates/k8s-integration/src/endpoint_slices.rs:239-313 | snapshots are built if and only if no slice has a live endpoint with a blank id |
| `EndpointDiscovery.IndexAgreesWithSort` | crates/k8s-integration/src/endpoint_slices.rs:265-310 | listing by id agrees with sorting by id if and only if ids are unique |
| `EndpointDiscovery.DiscoveryPathsAgree` | crates/k8s-integration/src/endpoint_slices.rs:204-313 | the discovery snapshot and the flushed endpoints of a service are the same list if and only if its live ids are unique |
| `EndpointDiscovery.RepeatedIdExample` | crates/k8s-integration/src/endpoint_slices.rs:204-313 | two accepted slices that name the same pod: the flush lists two endpoints, the discovery snapshot one |
| `EndpointDiscovery.GenerationIsMaximum` | crates/k8s-integration/src/endpoint_slices.rs:254-264 | the generation of a snapshot is the maximum over the slices of the service |
| `RecentEvents.EventWindow.SyncRecentEvents` | crates/k8s-integration/src/controller_pipeline.rs:219-230 | a sync takes over every event not seen before, dropping the oldest beyond 64 |
| `RecentEvents.WindowFollowsLog` | crates/k8s-integration/src/controller_pipeline.rs:219-230 | however often it is synced with a growing log the window is its last 64 events, in order |
| `Compiler.CompileEach` | crates/config-model/src/listener.rs:475-490 | the loop shared by listeners, routes and clusters reports the first duplicate or invalid resource, or compiles all |
| `Compiler.CompileAllMeaning` | crates/config-model/src/route.rs:304-318 | a list compiles if and only if names are distinct and every resource compiles, each to its own result in order |
| `Compiler.ListenerRoundTrip` | crates/config-model/src/listener.rs:87-118 | a compiled listener decompiled with defaults resolved recompiles to the same listener |
| `Compiler.RouteRoundTrip` | crates/config-model/src/route.rs:103-120 | normalising a route twice is normalising it once, with the shorthand expanded and destinations sorted |
| `Compiler.RecompileFromView` | crates/config-model/src/compiler.rs:520-602 | the decompiled view of any compiled snapshot recompiles to the same listeners, rules, clusters, view and digest |
| `Compiler.RoundTrip` | crates/config-model/src/compiler.rs:210-212 | recompiling a view gives back the whole snapshot if and only if the reconstructed configuration validates, and otherwise a validation error |
| `Compiler.RestorableExactly` | crates/config-model/src/compiler.rs:520-602 | it validates if and only if no cluster was discovery-backed and the remaining rules accept it |
| `Compiler.DiscoveryBackedSnapshotExample` | crates/config-model/src/validator/upstreams.rs:69-90 | a workspace with one discovered cluster compiles and cannot be restored from its view |
| `Compiler.DigestIdentifies` | crates/config-model/src/compiler.rs:613-619 | with an injective digest, equal digests mean equal snapshots, compiled parts included |
| `Compiler.CompiledNamesUnique` | crates/config-model/src/compiler.rs:400-518 | names are unique within each kind of resource of a compiled snapshot |
| `SnapshotDiff.IndexByName` | crates/config-model/src/compiler.rs:653-668 | indexing by name keeps the last fingerprint per name |
| `SnapshotDiff.ListChanges` | crates/config-model/src/compiler.rs:670-696 | the loop over names lists additions, removals and updates |
| `SnapshotDiff.DiffNamedResources` | crates/config-model/src/compiler.rs:653-696 | the diff of two lists |
| `SnapshotDiff.DiffExact` | crates/config-model/src/compiler.rs:653-742 | a change of a name is reported if and only if it happened to the resources, once per name and in name order |
| `SnapshotDiff.DiffSwap` | crates/config-model/src/compiler.rs:653-742 | swapping the arguments swaps additions with removals, in the same order |
| `SnapshotDiff.DiffIgnoresOrder` | crates/config-model/src/compiler.rs:653-742 | rearranging uniquely named resources is invisible to the diff |
| `SnapshotDiff.SummarizeChangeCounts` | crates/admin-api/src/control.rs:961-975 | the counting loop gives the three saturating counts |
| `SnapshotDiff.SummaryMeaning` | crates/admin-api/src/control.rs:961-975 | nothing removed or updated means every resource is kept, and additions are then the growth in number |
| `SnapshotDiff.LowImpactExactly` | crates/admin-api/src/control.rs:977-1016 | impact is low if and only if the listeners are the same, every route and cluster is kept and at most five are new |
| `SnapshotDiff.ImpactIgnoresPolicies` | crates/config-model/src/compiler.rs:282-292 | security settings and policies have no influence on the impact |
| `Registry.SnapshotControlService.PublishAt` | crates/admin-api/src/control.rs:492-601 | publication with its audit event and counters |
| `Registry.SnapshotControlService.PushEvent` | crates/admin-api/src/control.rs:825-842 | an event is appended and the registry size recorded |
| `Registry.SnapshotControlService.RestoreOne` | crates/admin-api/src/control.rs:785-823 | restoring one record: added if valid and its version and digest are new, otherwise an error; a known version is a conflict even with the same digest |
| `Registry.SnapshotControlService.ExportBackup` | crates/admin-api/src/control.rs:603-617 | the backup lists the records in history order |
| `Registry.SnapshotControlService.RestoreBackup` | crates/admin-api/src/control.rs:619-644 | records are restored in order up to the first failure |
| `Registry.PublishMeaning` | crates/admin-api/src/control.rs:492-601 | a record is added if and only if the request is valid and version and digest are new; accepted without adding if and only if the version already has that digest |
| `Registry.PublishKeepsInv` | crates/admin-api/src/control.rs:492-601 | publishing keeps index and digests mutually inverse, the history a duplicate-free enumeration, and every record unchanged |
| `Registry.RestoreKeepsInv` | crates/admin-api/src/control.rs:619-644 | so does restoring any backup, also when it fails half way |
| `Registry.RegistryInvariant` | crates/admin-api/src/control.rs:492-644 | so does every run of publications and restores |
| `Registry.RestoreReplays` | crates/admin-api/src/control.rs:619-644 | restoring a backup onto any earlier state of the same registry replays exactly what is missing |
| `Registry.BackupRoundTrip` | crates/admin-api/src/control.rs:603-644 | a backup restored from nothing rebuilds records, index and history, and restored onto its own registry changes none |
| `DurableState.RestoreDurableState` | crates/admin-api/src/control.rs:691-716 | the import loop stops at the first failure |
| `DurableState.RebuildService` | crates/admin-api/src/control.rs:691-716 | an import builds a new service whose state is that of the specification |
| `DurableState.AddRecord` | crates/admin-api/src/control.rs:697-708 | one record is read back and restored, or its error reported |
| `DurableState.RecordRoundTrip` | crates/admin-api/src/control.rs:53-83 | a record written out and read back is itself if and only if its snapshot is restorable |
| `DurableState.PruneTwice` | crates/admin-api/src/control.rs:910-916 | pruning twice keeps the newest events both retentions allow |
| `DurableState.DurableRoundTrip` | crates/admin-api/src/control.rs:660-716 | export then import rebuilds records, index and history with the newest events both retentions allow, if and only if every snapshot is restorable |
| `Dataplane.DataplaneSnapshotManager.ApplyAt` | crates/runtime/src/config_application.rs:277-376 | an apply validates, verifies, recognises the active version, or activates |
| `Dataplane.ApplyMeaning` | crates/runtime/src/config_application.rs:277-376 | a failed apply leaves the active and the last-known-good snapshot alone; a new one becomes both |
| `Rollout.RolloutCoordinator.RolloutAt` | crates/admin-api/src/rollout.rs:184-251 | a rollout with its history entry, counters and effect on the dataplane |
| `Rollout.RolloutCoordinator.RollbackAt` | crates/admin-api/src/rollout.rs:263-365 | a rollback likewise, including its silent refusal of a malformed target |
| `Rollout.RolloutCoordinator.ExecuteAction` | crates/admin-api/src/rollout.rs:382-476 | applying a published record |
| `Rollout.RolloutCoordinator.Acknowledge` | crates/admin-api/src/rollout.rs:405-427 | counting an acknowledgement and extending the known-good list |
| `Rollout.RolloutCoordinator.PushHistory` | crates/admin-api/src/rollout.rs:478-483 | an entry is appended and counted |
| `Rollout.FindCandidate` | crates/admin-api/src/rollout.rs:300-308 | the backward search finds the newest known-good version other than the active one |
| `RolloutSafety.ExecuteKeeps` | crates/admin-api/src/rollout.rs:382-476 | applying a published record keeps the last successful version active and the list without immediate repetition |
| `RolloutSafety.RolloutInvariant` | crates/admin-api/src/rollout.rs:184-482 | over every run of publications, restores, rollouts and rollbacks, whatever the hook answers, the last successful version is the active one, known-good versions stay published, and history size equals successful plus idempotent plus failed |
| `RolloutSafety.FreshSystem` | crates/admin-api/src/rollout.rs:168-172 | an empty system satisfies that invariant |
| `RolloutSafety.CandidateIsPrevious` | crates/admin-api/src/rollout.rs:300-308 | without a target a rollback goes to the version applied just before the active one |
| `RolloutSafety.RollbackTargetsKnownGood` | crates/admin-api/src/rollout.rs:263-365 | a rollback lands only on a version applied before, never finds it unpublished, and lacks a candidate if and only if fewer than two versions were applied in turn |
| `RolloutSafety.RollbackIsInvolutive` | crates/admin-api/src/rollout.rs:263-365 | two successful rollbacks without a target, with any registry operations between, restore the original active version |
| `Promotion.AnalyzeImpact` | crates/admin-api/src/control.rs:977-1016 | diffing, counting and grading two views gives their impact |
| `Promotion.PromotionCoordinator.PreviewCandidate` | crates/admin-api/src/promotion.rs:107-144 | a preview of the trimmed candidate against the named or latest baseline |
| `Promotion.PromotionCoordinator.ApplyAt` | crates/admin-api/src/promotion.rs:146-186 | a promotion: preview, gate, then rollout of the version as given |
| `Promotion.CompiledAllUnique` | crates/config-model/src/compiler.rs:400-518 | compiled snapshots in the registry have uniquely named resources |
| `Promotion.PreviewExact` | crates/admin-api/src/promotion.rs:107-144 | a preview succeeds if and only if candidate and baseline exist; an acknowledgement is asked for if and only if the change does not keep every listener, route and cluster or adds too much |
| `Promotion.BlockedExactly` | crates/admin-api/src/promotion.rs:163-170 | a promotion is blocked if and only if it is unacknowledged and an acknowledgement is asked for, and then touches nothing |
| `Promotion.UnacknowledgedKeeps` | crates/admin-api/src/promotion.rs:146-186 | a trimmed version promoted without acknowledgement is what the dataplane runs and keeps all listeners, every baseline route and cluster, and adds at most five |
| `Promotion.PreviewedIsAppliedExactly` | crates/admin-api/src/promotion.rs:112-182 | the version previewed is the version rolled out if and only if it was given without surrounding blanks |
| `Promotion.BlankEscapesGate` | crates/admin-api/src/promotion.rs:112-182 | with two compiled snapshots published from an empty registry as 1 and as 1 after a blank, an unacknowledged promotion puts a new listener into service |
| `Promotion.PolicyChangeEscapesGate` | crates/admin-api/src/promotion.rs:146-186 | two compiled snapshots that differ only in their policies are promoted one after the other without acknowledgement |
| `FleetExecution.NodeBackend.Act` | crates/admin-api/src/fleet.rs:333-345 | a call to the backend is logged and answered by the oracle |
| `FleetExecution.ExecuteEach` | crates/admin-api/src/fleet.rs:631-692 | the halting loop gives the log and outcomes of the specification |
| `FleetExecution.ExecutionShape` | crates/admin-api/src/fleet.rs:631-692 | every execution contacts a prefix of the nodes, in order and once each, ending at the first error that halts it |
| `FleetExecution.SkippedExactly` | crates/admin-api/src/fleet.rs:637-647 | a node is skipped if and only if a backend error stopped the rollout at an earlier node |
| `FleetExecution.SkippedIsSuffix` | crates/admin-api/src/fleet.rs:637-647 | skipped nodes form a suffix that starts right after a backend error |
| `FleetExecution.ImmediateContactsAll` | crates/admin-api/src/fleet.rs:679-692 | an immediate rollout contacts every node whatever they answer |
| `FleetExecution.SequentialStopsAtError` | crates/admin-api/src/fleet.rs:679-692 | a sequential rollout contacts nobody after its first backend error and everybody without one |
| `FleetExecution.CanaryIsolation` | crates/admin-api/src/fleet.rs:679-692 | if the backend fails at a canary node only canary nodes are contacted; if at none, every node is; also when more canary nodes are asked for than there are nodes |
| `FleetExecution.RejectionDoesNotHalt` | crates/admin-api/src/fleet.rs:656-692 | when the backend answers for every node, all are contacted, and a node counts as failed if and only if its answer is a rejection |
| `FleetConvergence.SurveyEach` | crates/admin-api/src/fleet.rs:786-848 | the status loop reports every node once and counts as it goes |
| `FleetConvergence.BuildConvergenceReport` | crates/admin-api/src/fleet.rs:774-892 | the report of the specification |
| `FleetConvergence.ConvergedExactly` | crates/admin-api/src/fleet.rs:850-861 | the four counts sum to the nodes, and the fleet converged if and only if every node runs the desired version and digest |
| `FleetConvergence.BudgetFlagExactly` | crates/admin-api/src/fleet.rs:791-792 | with a non-zero budget the exceeded flag is raised only at the very end of the clock range |
| `FleetConvergence.SharedVersion` | crates/admin-api/src/fleet.rs:894-907 | the shared version is the one every report names |
| `FleetConvergence.SharedLastKnownGoodVersion` | crates/admin-api/src/fleet.rs:894-907 | the early-exit loop computes it |
| `FleetConvergence.SharedRollbackCandidate` | crates/admin-api/src/fleet.rs:575-603 | the scan reports the first unavailable or disagreeing node, or the shared version |
| `FleetConvergence.SharedVersionIsCandidate` | crates/admin-api/src/fleet.rs:575-603 | with the backend unchanged a report names a shared last-known-good version if and only if a rollback without a target would choose it |
| `FleetStaged.AssignEach` | crates/admin-api/src/fleet_staged.rs:185-198 | the inner loop places the nodes of a wave or reports the first unknown or repeated one |
| `FleetStaged.AddEachWave` | crates/admin-api/src/fleet_staged.rs:144-199 | the outer loop over waves |
| `FleetStaged.PlanStagedRollout` | crates/admin-api/src/fleet_staged.rs:126-208 | the whole plan, with the first unassigned node in order |
| `FleetStaged.PlanIsPartition` | crates/admin-api/src/fleet_staged.rs:126-208 | a plan is accepted if and only if there is a wave, waves are well formed with distinct ids, and together they list every trimmed requested node exactly once; each node is mapped to its wave |
| `FleetStaged.WaveSizesSum` | crates/admin-api/src/fleet_staged.rs:126-208 | the wave sizes sum to the number of distinct requested nodes |
| `FleetGate.EvaluateWaveGate` | crates/admin-api/src/fleet_gate.rs:76-163 | the gate loop and verdict |
| `FleetGate.CollectWaveHealthSignals` | crates/admin-api/src/fleet_gate.rs:42-58 | the collection loop keeps the signals the backend answers |
| `FleetGate.GateThenDecision` | crates/admin-api/src/fleet.rs:472-515 | evaluation and decision together abort if and only if the gate is required, its saturating deadline passed and a node is missing or outside thresholds; the reason is always the timeout; only the mode that covers timeouts rolls back; evaluated plus missing is the wave |
| `FleetGate.DecisionMonotone` | crates/admin-api/src/fleet_gate.rs:84-85 | for fixed signals an abort stays decided at every later time |
| `FleetGate.OnFailedGateNeverRollsBack` | crates/admin-api/src/fleet.rs:70-79 | the mode for failed gates never triggers a rollback of an evaluated gate |
| `FleetStatus.RenderEachWave` | crates/admin-api/src/fleet_status.rs:83-98 | the rendering loop with its sticky flag |
| `FleetStatus.OverlayEach` | crates/admin-api/src/fleet_status.rs:241-245 | the inner loop over signals keeps the last one of each node |
| `FleetStatus.FlattenGateSignals` | crates/admin-api/src/fleet_status.rs:237-247 | the signals of all gates by node, gates in the order of their ids |
| `FleetStatus.MarkEach` | crates/admin-api/src/fleet_status.rs:254-258 | the inner loop over signals collects the nodes outside fixed thresholds |
| `FleetStatus.GateFailureNodes` | crates/admin-api/src/fleet_status.rs:249-261 | the nodes with such a signal in some gate |
| `FleetStatus.RenderEachNode` | crates/admin-api/src/fleet_status.rs:99-122 | one row per reported node, with its wave, signal and flag |
| `FleetStatus.RenderStagedStatusSurface` | crates/admin-api/src/fleet_status.rs:75-150 | the status of a staged rollout |
| `FleetStatus.FlagMeaning` | crates/admin-api/src/fleet_status.rs:249-261 | a row is flagged if and only if some gate holds a signal of that node with less than 95 percent ready or more than 5 percent errors |
| `FleetStatus.FlagsAgreeExactly` | crates/admin-api/src/fleet_status.rs:249-261 | the flag agrees with the threshold test of the gate for all signals if and only if the policy of the wave is 95 and 5 |
| `FleetStatus.StickyBlocking` | crates/admin-api/src/fleet_status.rs:152-235 | a wave is blocked if and only if it has no gate and an earlier wave failed or was aborted, and pending if and only if it has none, was not aborted and no earlier wave blocks it |
| `FleetRollout.ValidateFleetRequest` | crates/admin-api/src/fleet.rs:909-944 | the validation loop reports the first fault |
| `FleetRollout.NodesAcceptedExactly` | crates/admin-api/src/fleet.rs:924-939 | a node list is accepted if and only if its trimmed ids are distinct, non-empty and short enough |
| `FleetRollout.FleetRolloutCoordinator.Record` | crates/admin-api/src/fleet.rs:706-755 | an action is entered in the history and counted |
| `FleetRollout.FleetRolloutCoordinator.ExecuteAction` | crates/admin-api/src/fleet.rs:606-765 | loop, report, shared version and record together |
| `FleetRollout.FleetRolloutCoordinator.RolloutAt` | crates/admin-api/src/fleet.rs:360-405 | a fleet rollout, with the errors that precede it |
| `FleetRollout.FleetRolloutCoordinator.RollbackAt` | crates/admin-api/src/fleet.rs:407-459 | a fleet rollback to a named or shared version |
| `FleetRollout.FleetRolloutCoordinator.ExecuteAutoRollbackIfNeeded` | crates/admin-api/src/fleet.rs:518-573 | the automatic rollback |
| `FleetRollout.LedgerBalanced` | crates/admin-api/src/fleet.rs:706-771 | over every run rollouts plus rollbacks equal the history, which only grows |
| `FleetRollout.RefusedLeavesNoTrace` | crates/admin-api/src/fleet.rs:360-386 | a rollout is refused exactly for an invalid fleet, an invalid request or an unknown version, contacting nobody |
| `FleetRollout.AutoRollbackMeaning` | crates/admin-api/src/fleet.rs:518-573 | nothing happens unless decided; without a shared published version the error is reported and nothing touched; otherwise the target is that version and it succeeded if and only if every node then runs it |
| `FleetRollout.AutoRollbackCalls` | crates/admin-api/src/fleet.rs:518-573 | every call it makes is a rollback of a listed node to the target, and it makes none unless decided |
| `FleetRollback.AfterCalls` | crates/admin-api/src/fleet.rs:631-692 | after any prefix of the calls, at honest nodes exactly those that accepted name the new version as last known good |
| `FleetRollback.AfterAction` | crates/admin-api/src/fleet.rs:631-692 | the same after the whole action, read off the reported outcomes |
| `FleetRollback.CandidateAfterAction` | crates/admin-api/src/fleet.rs:575-603 | afterwards a rollback without a target chooses the new version if and only if every node accepted it, and the old one if and only if none did |
| `FleetRollback.AutoRollbackExactly` | crates/admin-api/src/fleet.rs:518-603 | the automatic rollback goes to the previous version if and only if no node had accepted the new one, to the new one if and only if every node had, and is refused if and only if some had and some had not |
| `FleetNodes.OwnNodesAreHonest` | crates/runtime/src/config_application.rs:354-375 | nodes that run this repository's own rollout coordinator and dataplane are honest in that sense |
| `ListenerCanary.ListenerCanaryCoordinator.Screen` | crates/admin-api/src/listener_canary.rs:165-214 | the checks of the request and of the change it would make, in order |
| `ListenerCanary.ListenerCanaryCoordinator.PrepareRollout` | crates/admin-api/src/listener_canary.rs:165-240 | every check before a node is contacted, in order |
| `ListenerCanary.EvaluateGates` | crates/admin-api/src/listener_canary.rs:247-253 | the loop that evaluates a gate per wave |
| `ListenerCanary.ListenerCanaryCoordinator.UndoIfNeeded` | crates/admin-api/src/listener_canary.rs:265-287 | the automatic rollback when a decision exists |
| `ListenerCanary.ListenerCanaryCoordinator.Judge` | crates/admin-api/src/listener_canary.rs:247-308 | gates, decision, rollback and status after the rollout |
| `ListenerCanary.ListenerCanaryCoordinator.ApplyCanary` | crates/admin-api/src/listener_canary.rs:155-309 | the whole composition |
| `CanarySafety.WavesJoinToNodes` | crates/admin-api/src/listener_canary.rs:203-227 | the waves joined are the requested nodes, and their ids differ |
| `CanarySafety.CanaryWaveIsolated` | crates/admin-api/src/listener_canary.rs:203-245 | in the rollout phase outcomes match the nodes one to one; if a canary outcome is a backend error only canary nodes were contacted, otherwise every node was |
| `CanarySafety.FleetWaveCalls` | crates/admin-api/src/listener_canary.rs:155-309 | over the whole run rollout calls come before rollback calls, and after a failed canary a node of the fleet wave is contacted only to be rolled back |
| `CanarySafety.CanaryDecides` | crates/admin-api/src/listener_canary.rs:255-263 | the decision concerns the canary wave alone |
| `CanarySafety.NothingPendingOrBlocked` | crates/admin-api/src/listener_canary.rs:247-253 | every wave has a gate, so none is ever shown pending or blocked |
| `CanarySafety.CanaryEndToEnd` | crates/admin-api/src/listener_canary.rs:155-309 | for every request, backend, clock and policy: a refused request or rollout touches nothing; otherwise abort if and only if the canary gate is required, past its deadline and a canary node unhealthy; rollback if and only if the policy also covers timeouts, to the shared published version, and without one the error is answered with the fleet left as the rollout left it; the status says which |
| `CanaryNames.LongNamesAreRefused` | crates/admin-api/src/listener_canary.rs:203-240 | a request that passes every check is refused by the wave plan, for a too long wave id, if and only if its trimmed listener name is longer than 57 bytes, although 128 pass the name check |
| `CanaryNames.LongNameExample` | crates/admin-api/src/listener_canary.rs:165-240 | a request with a name of 58 characters, on a registry of two compiled snapshots, that is refused so |
| `CanaryRollback.CanaryRollsBackToItself` | crates/admin-api/src/listener_canary.rs:255-309 | at honest nodes that ran another version, a canary that is to be rolled back is answered if and only if all or no nodes accepted it; it then reports itself rolled back, with the candidate itself as target unless no node accepted it |
| `CanaryRollback.RollbackResendsExample` | crates/admin-api/src/listener_canary.rs:155-309 | a fleet of one node of this repository and an unhealthy canary: the automatic rollback sends the new version again and the status says rolled back |
| `CanaryErrors.ErrorLeavesChanges` | crates/admin-api/src/listener_canary.rs:265-287 | whenever the error comes after the rollout was carried out, nodes have been contacted, the fleet history has one more entry and nothing was counted |
| `CanaryErrors.ErrorLeavesChangesExample` | crates/admin-api/src/listener_canary.rs:155-309 | one node applies the version but its status cannot be read: the canary answers an error, and the call and a history entry remain |
| `CacheTransport.Normalized` | crates/admin-api/src/cache_transport.rs:46-55 | normalising keeps the first backoff and leaves at least one attempt and a cap no smaller than it |
| `CacheTransport.HttpCachePeerTransport.WithRetryPolicy` | crates/admin-api/src/cache_transport.rs:358-361 | a retry policy is taken over normalised, so every transport has a normalised one |
| `CacheTransport.HttpCachePeerTransport.WithMaxFailureDetails` | crates/admin-api/src/cache_transport.rs:352-355 | at least one failure is always listed |
| `CacheTransport.BackoffExact` | crates/admin-api/src/cache_transport.rs:402-409 | each backoff is the initial one doubled min(k, 20) times over the integers and capped, also on overflow |
| `CacheTransport.BackoffGrows` | crates/admin-api/src/cache_transport.rs:402-409 | backoffs never decrease and never exceed the cap |
| `CacheTransport.Settled` | crates/admin-api/src/cache_transport.rs:393-415 | the settling attempt succeeded or was the last, and every earlier one failed |
| `CacheTransport.DeliverWithRetry` | crates/admin-api/src/cache_transport.rs:393-415 | the retry loop stops at that attempt, having waited the exact backoff after each failure |
| `CacheTransport.Count` | crates/admin-api/src/cache_transport.rs:417-462 | counting and recording the outcome of one peer |
| `CacheTransport.FanOut` | crates/admin-api/src/cache_transport.rs:388-463 | the fan-out loop |
| `CacheTransport.HttpCachePeerTransport.Publish` | crates/admin-api/src/cache_transport.rs:379-482 | publication of an event with its stored report, which conserves as below; an invalid event contacts nobody |
| `CacheTransport.TotalsBalance` | crates/admin-api/src/cache_transport.rs:417-462 | subscribers are successes plus failures, successes are applied plus duplicates, and purged entries add up |
| `CacheTransport.FailuresListed` | crates/admin-api/src/cache_transport.rs:417-462 | the listed failures are the first ones that fit |
| `CacheTransport.FanOutConserves` | crates/admin-api/src/cache_transport.rs:379-482 | for any peers the totals balance, attempts lie between one and the maximum, and a peer is recorded as failed if and only if every allowed attempt failed |
| `HexCodec.EncodeHex` | crates/config-model/src/security.rs:333-340 | the encoding loop |
| `HexCodec.DecodeHexArray` | crates/config-model/src/security.rs:350-362 | the decoding loop into a fixed buffer |
| `HexCodec.DecodeOfEncode` | crates/config-model/src/security.rs:333-374 | decoding what was encoded gives the bytes back |
| `HexCodec.EncodeOfDecode` | crates/config-model/src/security.rs:333-374 | encoding what was decoded gives the text back |
| `HexCodec.DecodesExactly` | crates/config-model/src/security.rs:350-378 | decoding succeeds if and only if the text has the length and only lower-case hexadecimal digits |
| `AdminAuth.ConstantTimeEq` | crates/admin-api/src/auth.rs:470-481 | the accumulating comparison is true if and only if the byte strings are equal |
| `AdminAuth.ValidateCredentials` | crates/admin-api/src/auth.rs:483-520 | the validation loop reports the first fault |
| `AdminAuth.AdminAuthService.FromCredentials` | crates/admin-api/src/auth.rs:200-224 | invalid credentials are refused, valid ones give a new service |
| `AdminAuth.Scan` | crates/admin-api/src/auth.rs:242-247 | the scan that compares every secret refines a map lookup |
| `AdminAuth.AdminAuthService.AuthenticateToken` | crates/admin-api/src/auth.rs:226-267 | authentication is the lookup, with its audit event and counters |
| `AdminAuth.AdminAuthService.AuthorizeToken` | crates/admin-api/src/auth.rs:269-293 | authorisation adds the role check |
| `AdminAuth.AdminAuthService.PushAudit` | crates/admin-api/src/auth.rs:461-467 | an event is appended, dropping the oldest of 64 |
| `AdminAuth.AuditLogIsRecentTrace` | crates/admin-api/src/auth.rs:461-467 | over every run the audit log is the last 64 events and the counters count successes, failures and denials among all of them |
| `AdminAuth.AcceptedExactly` | crates/admin-api/src/auth.rs:200-224 | after valid credentials a token is accepted if and only if it is the secret of a credential, as that credential |

## Left out

- Sockets, TLS, environment parsing, threads and sleeping; peer delivery, health reads and time are arguments.
- Display texts and detail strings, except the two that reach a node as the reason of an automatic rollback.
- The operator reconciler, Gateway API translation and status projection of the Kubernetes integration.
- The rest of the configuration validator, and the contents of policies, match rules and traffic settings, which are opaque text here.
- Signing of cache peer requests, and validation of peer configurations.
- The admin operations that only authorise and then delegate to the modelled services.
- Clock errors of the canary rollout.
- Registry.SnapshotControlService.PublishAt: the response does not carry the diff to the previous snapshot, which `SnapshotDiff` treats.
- Dataplane.DataplaneSnapshotManager.ApplyAt: validation by the hook is merged with activation, because both only refuse, and the record of the last failure is not kept.
- FleetStatus.RenderStagedStatusSurface: readiness and detail of the rows per node are not carried.
- CacheTransport.HttpCachePeerTransport.Publish: scope, latencies and the partition flag of the report are not carried.
- PipelineRetry.RetryShowsExactly: ends with the first drive that pops the failed work; a submission of the same or a newer generation replaces it as `ReconcileQueue.EnqueuesCoalesce` says, and `PipelineRetry.ViewShowsExactly` with `PipelineRetry.PendingExactly` covers what that one sees.
- EndpointDiscovery.BuildDiscoverySnapshots: the cluster-name error is not modelled, because the name built from namespace, service and port is never blank; validity times are not carried.
- CacheTransport.FanOut: the number of purged entries is unbounded, where the program adds machine words.
- FleetConvergence.BuildConvergenceReport: readiness, desired version and detail of a node are not carried, because nothing depends on them.
- Promotion.PromotionCoordinator.PreviewCandidate: carries the severity and digests, not the change lists, which `SnapshotDiff` treats.
- ReconcileQueue.NoWorkIsLost: says nothing of the order of generations handed to the pipeline across pops, because the queue keeps no memory of popped keys.
- FleetRollback.AutoRollbackExactly: is about nodes that report what they last accepted as last known good; `FleetNodes.OwnNodesAreHonest` shows the repository's own nodes do.
