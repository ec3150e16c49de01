# A verified model of the Astarte Kubernetes operator

This project models, in Dafny 4.11, what the operator does to a cluster and proves what it keeps
while doing so. `dafny verify dfyconfig.toml` checks all of it.

## How the model is built

**The cluster** (`Cluster.dfy`) is a store of named objects, one Astarte resource, and a client whose
every call can fail. A failing call may still take effect (`Landed`), and between any two calls
somebody else may act: edit the specification, request deletion, handle other finalizers, put or
remove users' Secrets. All of this is decided by an oracle, so a statement "for every oracle" covers
every pattern of faults and interruptions. Each call appends the state it leaves to a log, so a
statement about the log covers every intermediate state, not just the ends of reconciles.

**The code** (`Reconciler.dfy`, `Controller.dfy`, `FlowBlocks.dfy`, and the loops in `Queues.dfy`,
`Allocation.dfy`, `Admission.dfy`, `Checksums.dfy`, `Health.dfy`) is imperative Dafny that follows the
Go methods call by call. `Plans.dfy` describes a reconcile of resources as data, a list of steps with
an interpreter; the methods of `Reconciler.dfy` are proved to do exactly what their part of the list
says, for every oracle, and the theorems are about the list.

**The proofs.** `Discipline.dfy` shows once and for all that the list is disciplined: each step relies
only on what earlier steps have put in place, and no step touches what an earlier one has done. From
this follow, in separate modules:

- `Invariants.dfy`: no workload ever refers to something that is not there; the Housekeeping keys match
  and, once published, never change; the Data Updater Plant (DUP) Deployments have no gaps.
- `Rollout.dfy`, `Sharding.dfy`, `Interruptions.dfy`: every fleet of DUP Deployments a reconcile goes
  through, exactly when queue ranges computed for different replica and queue counts overlap, which
  runs never overlap, a run that does, and what repeated reconciles converge to.
- `Startup.dfy`: with a fixed specification the workloads come up in one fixed order.
- `Outcome.dfy`: what a successful reconcile leaves behind, object by object (references, queue ranges,
  configurations, the specification rendered from), that nothing else is created, and what workloads look
  like at every state.
- `Convergence.dfy`: reconciling twice is reconciling once.
- `Lifecycle.dfy`, `Finalization.dfy`: the finalizer protocol, what a finalization deletes, and that a
  deletion completes.
- `Reporting.dfy`: the status is green only after a look at a cluster in which everything is ready, which
  upgrades the gate refuses, and what a lost status is restored to.
- `Upgrades.dfy`, `Locality.dfy`: which reconciles of a run can replace the version in the status, exactly
  from where the upgrade gate is passed by, and retries; all of it only about what others do while these
  reconciles run, since a reconcile does not depend on what comes later.
- `Operation.dfy`: the invariants above at every state of a run of top-level reconciles, with deletions
  and finalizations.

Independent of the shared store: `Allocation.dfy` (CPU and memory), `Admission.dfy` with `Text.dfy`
(webhook against reconcile-time parser), `Checksums.dfy` with `Json.dfy` and `Listings.dfy`, `FlowBlocks.dfy`
with `FlowNames.dfy`, `Names.dfy`.

## Where the code does not do what one might expect

- DUP ranges of old and new layouts overlap exactly when the new quotient is the larger one and the old
  range is not empty. With a fixed queue count this can only happen when the replica count goes down
  after a reconcile that did not finish (`Sharding.SteadyRunsNeverOverlap`), and then it can
  (`Interruptions.LoweringAfterAnUnfinishedReconcileOverlaps`).
- While nobody changes the requested version during a reconcile, the upgrade gate is bypassed in exactly
  two situations (`Upgrades.Bypasses`, `Upgrades.GateIsBypassedExactlyWhen`). In manual maintenance mode
  the status takes the requested version at once. And when the status is empty, `EnsureStatusCoherency`
  restores the version from Housekeeping's image in the cluster, but re-assigns its own `instance`
  variable only: the caller goes on with a copy whose version is still empty, skips the gate, and
  replaces the restored version at the end.
- That restoration takes the tag of the image to be what follows its only colon. With a distribution channel
  that has a colon itself, such as a registry with a port, it always fails, and with it the reconcile
  (`Reporting.RenderedVersionIsRestored`).
- There is a third way past the gate: the status at the end is computed from a fresh read of the
  resource. If another version is requested after the reconcile's first read, it is recorded as running
  although the gate has not been asked and the resources were rendered for the old version
  (`Upgrades.EditEscapes`). The starts from which that can happen are known exactly
  (`Upgrades.Exposed`, `Upgrades.GateCanBePassedExactlyWhen`): among them is the ordinary one, in which
  the status already holds the requested version.
- `FinalizeAstarte` says that it deletes the CFSSL CA Secret, but the name it uses, `<name>-cfssl-ca`, is
  that of the proxy Secret with the certificate; the generated CA is `<name>-devices-ca`. So no
  finalization deletes the generated CA, whatever fails (`Finalization.FinalizationSparesTheRest`), and it
  is there, unchanged, at every state of every run, also after the resource is gone
  (`Operation.GeneratedCAStays`); removing it is up to Kubernetes' garbage collection of owned objects.
- The resource allocator counts Flow as deployed when its flag is unset, while Flow is only deployed on
  request; then the weights of what is deployed sum to less than one (`Allocation.DeployedWeights`).
- The allocator raises memory requests to 128 MB only when they are at most 127 MB, because `ScaledValue`
  rounds up before the comparison (`Allocation.GrantedExactly`).
- Something that is no number at all is reported twice by the webhook, as not an integer and as even
  (`Admission.NonsenseIsReportedTwice`).
- With a negative CPU or memory budget the clamped requests exceed it (`Allocation.CpuRequestsFitTheBudget`).
- The CFSSL checksum covers values only, so it does not tell arbitrary maps apart
  (`Checksums.ChecksumMissesMovedText`). It does tell apart all configurations that the operator makes,
  because no marshalled JSON object begins another (`Checksums.ConfigurationsAreToldApart`).
- Names of Flow objects meet exactly when one block ID goes on like another one followed by a dash
  (`FlowNames.Extends`), which IDs free of dashes never do. From such IDs, and only from such, a history can
  arise in which a reconcile deletes the Secret of a worker that its Flow names
  (`FlowBlocks.IdsAreSafeExactlyWhen`, `FlowBlocks.DashesDeleteNamedSecret`). Blocks that share an ID delete
  each other's worker Secrets (`FlowBlocks.NamedIsSafeExactlyWhen`). Across flows, a reconcile can put wrong
  labels behind another flow's names exactly when one flow's name goes on like the other's with a block
  (`FlowBlocks.FlowsDisturbExactlyWhenTheyClash`).

## Model

| member | source | states |
|---|---|---|
| Queues.GetDataUpdaterPlantQueueRange | internal/reconcile/astarte_generic_backend.go:302-319 | the range handed to a replica holds exactly the queues whose owner, the replica at queue / (count / replicas) capped at the last one, it is |
| Queues.SharesPartitionTheQueues | internal/reconcile/astarte_generic_backend.go:302-319 | for any replica count, a queue lies in a replica's range if and only if it exists and the replica owns it |
| Queues.SharesHoldOnlyRealQueues | internal/reconcile/astarte_generic_backend.go:302-319 | no range reaches outside the existing queues, even for a negative queue count |
| Queues.ShareSizes | internal/reconcile/astarte_generic_backend.go:310-318 | every replica but the last gets the quotient, the last one the remainder on top |
| Queues.MixedRangesCollideExactlyWhen | internal/reconcile/astarte_generic_backend.go:310-318 | new ranges in front of an old one share a queue with it if and only if the new quotient is larger and the old range is not empty, whether replicas, queues or both have changed |
| Queues.GrowingIsCompatible | internal/reconcile/astarte_generic_backend.go:310-318 | rolling out more replicas never lets a new range run into an old one |
| Names.DUPNamesAreDistinct | internal/reconcile/astarte_data_updater_plant.go:93-96 | different replica indices give different Deployment names |
| Health.ComputeClusterHealth | internal/controllerutils/astarte_controller.go:85-147 | the counting loop and the three checks compute green, yellow or red from the number of problems |
| Health.GreenExactlyWhen | internal/controllerutils/astarte_controller.go:85-147 | green if and only if the list could be had and everything meant to run has a ready replica |
| Health.YellowExactlyWhen | internal/controllerutils/astarte_controller.go:85-147 | yellow if and only if the list could be had and exactly one thing meant to run is not ready: one Deployment, or VerneMQ, or CFSSL |
| Reconciler.EnsureHousekeepingKey | internal/reconcile/common.go:39-82 | for every oracle, leads to the state and error of the key pair step: a leftover private key goes first, the public key comes last |
| Reconciler.EnsureGeneratedSecret | internal/reconcile/utils.go:271-306 | a secret is generated only if a successful read found none, and an existing one is never written |
| Reconciler.ReconcileRBAC | internal/reconcile/utils.go:132-188 | does the three writes of its plan in order and stops at the first error |
| Reconciler.EnsureAstartePriorityClasses | internal/reconcile/astarte_priorityclass.go:52-116 | writes the three priority classes in order, or nothing when the feature is off |
| Reconciler.EnsureCFSSL | internal/reconcile/cfssl.go:48-132 | does its part of the plan: retirement, or sidecars, configuration, CA, proxy Secret and Deployment |
| Reconciler.EnsureCFSSLCommonSidecars | internal/reconcile/cfssl.go:134-170 | on success the ConfigMap holds the wanted configuration |
| Reconciler.EnsureCFSSLCAProxySecret | internal/reconcile/cfssl.go:415-425 | publishes the certificate of a CA Secret that is there and fails otherwise |
| Reconciler.DeleteIfPresent | internal/reconcile/astarte_generic_api.go:120-146 | deletes a workload that should not run; whether a failed deletion counts depends on the component |
| Reconciler.EnsureAstarteGenericAPIComponent | internal/reconcile/astarte_generic_api.go:42-118 | does its part of the plan, the Deployment last; what that looks like is in Outcome.SuccessIsAsWanted |
| Reconciler.EnsureAstarteGenericBackend | internal/reconcile/astarte_generic_backend.go:40-120 | does its part of the plan; a single DUP replica takes all queues; what the Deployment looks like is in Outcome.SuccessIsAsWanted |
| Reconciler.DeleteExcessDeployments | internal/reconcile/astarte_data_updater_plant.go:42-60 | deletes all DUP Deployments when there are too many or none are wanted, and otherwise none |
| Reconciler.CreateIndexedDeployments | internal/reconcile/astarte_data_updater_plant.go:80-87 | the loop writes replicas 0, 1, ... one after the other and stops at the first error |
| Reconciler.CreateIndexedDataUpdaterPlantDeployment | internal/reconcile/astarte_data_updater_plant.go:90-147 | one replica: its cookie, then its Deployment with the range for its index; what that looks like is in Outcome.SuccessIsAsWanted |
| Reconciler.EnsureAstarteDataUpdaterPlant | internal/reconcile/astarte_data_updater_plant.go:38-88 | does its part of the plan for every oracle |
| Reconciler.MaybeDeleteVerneMQPods | internal/reconcile/vernemq.go:466-492 | the list of Secrets and, if the listener's is not among them, the deletion of the pods; both can fail |
| Reconciler.EnsureVerneMQ | internal/reconcile/vernemq.go:46-163 | does its part of the plan for every oracle, the check of the listener's Secret before the StatefulSet included |
| Reconciler.EnsureAstarteDashboard | internal/reconcile/astarte_dashboard.go:40-134 | does its part of the plan for every oracle |
| Reconciler.EnsureAstarteMicroservices | internal/controllerutils/astarte_controller.go:308-347 | the services in their order, stopping at the first error |
| Reconciler.ReconcileAstarteResources | internal/controllerutils/astarte_controller.go:256-305 | a whole reconcile of resources leads to exactly the state, history and error of executing the plan; on success everything the specification wants is there as wanted |
| Plans.ExecAppend | internal/controllerutils/astarte_controller.go:256-305 | executing two lists in a row is executing the second only if the first succeeded |
| Discipline.StepKeeps | internal/controllerutils/astarte_controller.go:256-347 | a property kept by a step's changes and by everybody else holds after every call of the step, however the calls end |
| Discipline.StepEstablishes | internal/controllerutils/astarte_controller.go:256-347 | what a step that succeeded has left in the store |
| Discipline.PlanIsGuarded | internal/controllerutils/astarte_controller.go:256-347 | for every specification each step of the plan relies only on objects that earlier steps made sure of, and touches none of them |
| Outcome.SuccessIsAsWanted | internal/reconcile/utils.go:398-452 | after a reconcile that succeeds, every wanted Deployment (each DUP index below the replica count included) is rendered from this very specification and refers to exactly key base, Erlang configuration, clustering or own cookie and, for Housekeeping, the public key; every Secret, account, service, priority class and configuration that is needed is there, the published certificate and the ConfigMaps with the right contents |
| Outcome.NothingElseIsCreated | internal/controllerutils/astarte_controller.go:256-347 | at every state of a reconcile, finished or not, each object of the operator that was not there before is one of those or the Housekeeping private key |
| Outcome.EveryStateIsRendered | internal/controllerutils/astarte_controller.go:256-347 | at every state of every run, each workload has exactly these references, queue range and configuration for one of the specifications asked for, by which it was wanted |
| Outcome.NothingIsRendered | internal/controllerutils/astarte_controller.go:256-261 | a cluster in which nothing runs is a start for such runs |
| Outcome.SwitchingOffFailsExactlyWhen | internal/reconcile/astarte_generic_api.go:120-146 | switching off an API component never fails; for Trigger Engine, the dashboard, VerneMQ and CFSSL it fails if and only if the workload is found and its deletion fails |
| Invariants.EveryStateIsSound | internal/controllerutils/astarte_controller.go:256-347 | at every state of every run with any specification edits: all references of workloads resolve, a public key has its matching private key, DUP Deployments have no gaps |
| Invariants.PublishedKeysAreFrozen | internal/reconcile/common.go:39-82 | from any state in which the public key exists to any later one, neither key changes |
| Invariants.ReconcileIsSound | internal/controllerutils/astarte_controller.go:256-347 | one reconcile, interrupted anywhere, keeps soundness at every state |
| Rollout.PlanReconciles | internal/reconcile/astarte_data_updater_plant.go:43-87 | at every state of a reconcile the DUP fleet is the old one, or what was kept of it with the first so many replicas renewed; a reconcile that succeeds passes through all of these and ends with the last |
| Sharding.OverlapByLayouts | internal/reconcile/astarte_generic_backend.go:302-319 | two Deployments share a queue if and only if their index, replica count and queue count say so |
| Sharding.SmoothStaysDisjoint | internal/reconcile/astarte_data_updater_plant.go:49-85 | from a smooth start no mix of new and old ranges overlaps |
| Sharding.NoOverlapExactlyWhenSmooth | internal/reconcile/astarte_data_updater_plant.go:49-85 | a reconcile that succeeds has every queue in one hand at every state if and only if its start is smooth, a test on replica and queue counts, whatever these were when the ranges found were computed; from a smooth start so has every interrupted one |
| Sharding.SteadyRunsNeverOverlap | internal/reconcile/astarte_data_updater_plant.go:43-87 | in every run with a fixed queue count that never lowers the replica count, other than to nothing, after a reconcile that wanted replicas and did not finish, no two Deployments hold the same queue at any state; switching the component off is allowed at any time and, once it succeeds, makes up for the unfinished one |
| Sharding.NoFleetIsCalm | internal/reconcile/astarte_data_updater_plant.go:43-47 | a cluster without DUP Deployments is a start for such runs |
| Sharding.OneReconcileConvergesExactlyWhen | internal/reconcile/astarte_data_updater_plant.go:49-85 | from any labelled Deployments, one successful reconcile leaves exactly replicas 0 to n-1 if and only if there were more than n, or none outside these |
| Sharding.TwoReconcilesConverge | internal/reconcile/astarte_data_updater_plant.go:43-87 | from any labelled Deployments, any run with one replica count in which two reconciles succeed, whatever fails before, between and after them, ends with exactly replicas 0 to n-1 |
| Sharding.GapFreeConverges | internal/reconcile/astarte_data_updater_plant.go:49-85 | a gap-free fleet converges in one reconcile |
| Sharding.FinishedFleetPartitionsTheQueues | internal/reconcile/astarte_generic_backend.go:302-319 | after a reconcile that succeeds and converges, a Deployment consumes a queue if and only if the queue exists and the Deployment's index is its owner |
| Sharding.UnsetQueueCountMeans128 | internal/reconcile/astarte_generic_backend.go:302-319 | without a queue count the fleet shares out the queues 0 to 127 |
| Sharding.UnsetCountsMeanOneForAll | internal/reconcile/astarte_generic_backend.go:302-319 | without replica and queue counts, replica 0 alone consumes exactly the queues 0 to 127 |
| Interruptions.AnyStateCanBeLast | internal/controllerutils/astarte_controller.go:256-305 | every intermediate state of a reconcile is the final state of some interrupted one |
| Interruptions.CanStopAfter | internal/reconcile/astarte_data_updater_plant.go:80-87 | from any sound store a reconcile can stop for good right after any number of DUP Deployments |
| Interruptions.LoweringAfterAnUnfinishedReconcileOverlaps | internal/reconcile/astarte_data_updater_plant.go:49-85 | 128 queues at 3 replicas, an attempt at 5 stopped after two, an attempt at 4 stopped after one: ranges 0 to 31 and 25 to 49 |
| Startup.PlanStartsInOrder | internal/controllerutils/astarte_controller.go:282-347 | the plan starts exactly the wanted workloads, in the written-out order CFSSL, Housekeeping, ..., VerneMQ, Dashboard |
| Startup.ComesUpInOrder | internal/controllerutils/astarte_controller.go:282-347 | with a fixed specification the existing workloads are, at every state of every run, exactly a first part of that list |
| Startup.NothingRunsIsInOrder | internal/controllerutils/astarte_controller.go:256-261 | a cluster in which nothing runs is a start for such runs |
| Convergence.ExecSettles | internal/controllerutils/astarte_controller.go:256-347 | a faultless reconcile settles all steps up to where it ends, and it only ends early on a missing user CA Secret |
| Convergence.FaultlessReconcileSucceeds | internal/controllerutils/astarte_controller.go:256-347 | without faults a reconcile succeeds unless the CA Secret that the user names is missing |
| Convergence.ReconcilingTwiceIsOnce | internal/controllerutils/astarte_controller.go:256-347 | after a faultless reconcile, another one with the same specification and any faults changes nothing the operator made at any state, generated values included |
| Controller.UpdateStatus | internal/controllerutils/astarte_controller.go:224-253 | one read-modify-write of the status from the resource as it is then; which health it reports is in Reporting.FinalStatusIsHonest |
| Controller.RestoreVersion | internal/controllerutils/astarte_controller.go:182-201 | one read-modify-write that only changes the version |
| Controller.UpdateFinalizers | internal/controller/api/astarte_finalizer.go:53-65 | writes finalizers unless the copy is out of date or the resource is gone |
| Controller.Remove | internal/controller/api/astarte_controller.go:192-196 | all occurrences of a string go, the rest keeps its order |
| Controller.FinalizePriorityClasses | internal/controllerutils/astarte_finalizer.go:87-109 | deletes the listed ones of the three priority classes and stops at the first error |
| Controller.EraseClaims | internal/controllerutils/astarte_finalizer.go:50-68 | deletes the listed volume claims that begin with one of the four prefixes, and goes on when that fails |
| Controller.FinalizeAstarte | internal/controllerutils/astarte_finalizer.go:36-85 | leads to the state and error of the finalization: failures on the proxy Secret and on volume claims are ignored, failed lists and priority class deletions are not |
| Controller.HandleFinalization | internal/controller/api/astarte_finalizer.go:33-51 | the finalizer is removed only after finalization without error |
| Controller.EnsureStatusCoherency | internal/controllerutils/astarte_controller.go:150-221 | an empty status is restored from Housekeeping's image tag in the cluster; other tags than exactly one are an error; the caller's copy has its health reset and its version still empty |
| Controller.CopyBehavesAlike | internal/controller/api/astarte_controller.go:136-164 | what follows does the same with that copy as with the resource that was found |
| Controller.ComputeClusterHealth | internal/controllerutils/astarte_controller.go:85-147 | health from a list and up to two reads, each a call of its own; what a failed call would have shown is not seen |
| Controller.CheckAndPerformUpgrade | internal/controllerutils/astarte_controller.go:54-82 | refuses if and only if neither the reported health nor the one computed from these calls is green |
| Controller.Reconcile | internal/controller/api/astarte_controller.go:73-189 | the whole top-level reconcile leads to the state, history and verdict of its specification, for every oracle and notion of supported versions |
| Lifecycle.ExecRelates | internal/controllerutils/astarte_controller.go:256-305 | what every single call keeps, a whole reconcile of resources keeps |
| Lifecycle.ReconcileRelates | internal/controller/api/astarte_controller.go:73-189 | what every single call of the operator keeps, a whole top-level reconcile keeps |
| Lifecycle.ReconcileKeeps | internal/controller/api/astarte_controller.go:130-146 | one reconcile keeps the finalizer protocol |
| Lifecycle.ProtocolHolds | internal/controller/api/astarte_finalizer.go:33-65 | in every run: objects are written only while the resource carries the finalizer; it is lost, or the resource gone, only right after finalization without error; it is never there twice; other finalizers survive each write in order |
| Lifecycle.NothingIsGood | internal/controller/api/astarte_controller.go:77-86 | a cluster without an Astarte resource is a start for such runs |
| Lifecycle.DeletionCreatesNothing | internal/controller/api/astarte_controller.go:130-134 | a reconcile that finds its resource marked for deletion creates and updates no object |
| Finalization.FinalizationSparesTheRest | internal/controllerutils/astarte_finalizer.go:36-109 | whatever fails, a finalization leaves alone all of the operator's objects but the proxy Secret, the instance's volume claims and priority classes; the generated CA among them |
| Finalization.FinalizationErasesExactly | internal/controllerutils/astarte_finalizer.go:36-109 | without faults it succeeds and deletes exactly these |
| Finalization.GoneExactlyWhen | internal/controllerutils/astarte_finalizer.go:36-109 | without faults an object of the operator goes if and only if it is the proxy Secret, a priority class, or a volume claim that begins with the instance's name and one of the four written-out suffixes; the others stay as they are |
| Finalization.FinishedDeletionReleases | internal/controller/api/astarte_finalizer.go:33-51 | whatever failed and whoever acted, once the reconcile of a deleted resource finishes the resource is gone or without the finalizer |
| Finalization.DeletionCompletes | internal/controller/api/astarte_controller.go:130-134 | without faults, and with nobody else touching the resource, one reconcile completes a deletion: exactly these objects are gone, the other finalizers stay, and the resource is gone if and only if there are none |
| Locality.ReconcileIsLocal | internal/controller/api/astarte_controller.go:73-189 | a top-level reconcile is the same for any two oracles that agree on all calls up to its last one |
| Reporting.FinalStatusIsHonest | internal/controllerutils/astarte_controller.go:224-253 | a reconcile that finishes with a status write reports the requested version, and green if and only if in the view of its last call the Deployments were listed and everything meant to run has a ready replica |
| Reporting.SeenGreenExactlyWhen | internal/controllerutils/astarte_controller.go:85-147 | the gate sees green if and only if the list and each read of what is meant to run succeeded and showed a ready replica |
| Reporting.GreenHasBeenSeen | internal/controllerutils/astarte_controller.go:224-253 | in every run, at every state, a green status has been written by an earlier call, for this very resource, that saw exactly that |
| Reporting.NothingIsHonest | internal/controller/api/astarte_controller.go:77-86 | a cluster without the resource is a start for such runs |
| Reporting.UpgradesFollowASight | internal/controllerutils/astarte_controller.go:54-66 | in every run from no resource, a reconcile that replaces a released version, started where the gate is not bypassed and with no other version requested meanwhile, does so only after such a sight, an earlier one or its own |
| Reporting.RefusedExactlyWhen | internal/controllerutils/astarte_controller.go:54-82 | a reconcile refuses if and only if a released version would be replaced by another, supported one, in a resource held by the finalizer, neither in maintenance nor deleted, while green was not reported and not everything was seen ready |
| Reporting.TagExactlyWhen | internal/controllerutils/astarte_controller.go:170-181 | an image yields a tag if and only if the tag follows its only colon |
| Reporting.LostStatusIsRestored | internal/controllerutils/astarte_controller.go:150-221 | an empty status, if its restoration does not fail, then has the tag of the running Housekeeping's image as its version |
| Reporting.RenderedVersionIsRestored | internal/reconcile/utils.go:744-750 | that is the version Housekeeping was rendered for, if neither an image nor a version of its own is chosen; and it fails if the distribution channel has a colon |
| Upgrades.VersionsAreGuarded | internal/controller/api/astarte_controller.go:149-164 | a reconcile replaces no released version in the status unless it starts where the gate is bypassed, or the gate sees green, or another version is requested between its first and its last call |
| Upgrades.RunsAreGuarded | internal/controller/api/astarte_controller.go:73-189 | in every run, upgrades in a row included, every replacement of a released version is made by one of those reconciles |
| Upgrades.BypassSlips | internal/controllerutils/astarte_controller.go:186-212 | from every start where the gate is bypassed, some reconcile replaces the version with the cluster in the worst of health |
| Upgrades.EditEscapes | internal/controller/api/astarte_controller.go:166-180 | from every exposed start, a single request for any other version just before the final status write replaces the version past the gate, with the cluster in the worst of health |
| Upgrades.GateIsBypassedExactlyWhen | internal/controller/api/astarte_controller.go:96-164 | while nobody changes the requested version, a reconcile can replace a version past the gate if and only if it starts in maintenance mode with another version requested, or with an empty status, our finalizer, and a released Housekeeping version other than the requested one |
| Upgrades.GateCanBePassedExactlyWhen | internal/controller/api/astarte_controller.go:96-180 | if the requested version may change meanwhile, it can if and only if it starts in maintenance mode with a released version in the status, or, not being deleted and with a supported version, with the requested version, a release, in the status, or with an empty status, our finalizer and a released Housekeeping version |
| Upgrades.RetriesAreNeverRefused | internal/controllerutils/astarte_controller.go:54-66 | once an upgrade is requested while health is reported green, and as long as it stays requested, after any number of attempts the gate does not refuse the next |
| Operation.HoldsThroughoutOperation | internal/controller/api/astarte_controller.go:73-189 | a property that reconciles of resources keep throughout, and that does not depend on what finalization deletes, holds at every state of every run of top-level reconciles |
| Operation.OperationIsSound | internal/controller/api/astarte_controller.go:73-189 | soundness at every state of every run of the operator, deletions and finalizations included |
| Operation.FinishedIsAsWanted | internal/controller/api/astarte_controller.go:73-189 | a top-level reconcile that finishes, for a resource found neither deleted nor in maintenance, leaves everything that its specification wants, as wanted |
| Operation.OperationIsRendered | internal/controller/api/astarte_controller.go:73-189 | at every state of every run of the operator, each workload looks as one of the specifications asked for wants it |
| Operation.OperationComesUpInOrder | internal/controller/api/astarte_controller.go:73-189 | with a specification that stays the same during the run, the existing workloads are a first part of the fixed list at every state of it |
| Operation.GeneratedCAStays | internal/controllerutils/astarte_finalizer.go:36-46 | the generated CA is there, unchanged, at every state of every run of the operator, finalizations included |
| Operation.OperationFreezesPublishedKeys | internal/reconcile/common.go:39-82 | in every run of the operator, from any state in which the public key exists to any later one, neither key changes |
| Operation.SteadyOperationNeverOverlaps | internal/reconcile/astarte_data_updater_plant.go:43-87 | the same at every state of every run of the operator, for the reconciles of resources that it gets to |
| Allocation.GetNumberOfDeployedAstarteComponents | internal/misc/utils.go:258-287 | the number of components whose flag does not say no |
| Allocation.GetLeftoverCoefficient | internal/misc/utils.go:289-312 | the weight that disabled components leave on the table |
| Allocation.GetWeightedDefaultAllocationFor | internal/misc/utils.go:314-327 | a component's weight with its even part of the leftover |
| Allocation.GetResourcesForAstarteComponent | internal/misc/utils.go:178-238 | explicit resources win; otherwise, for a non-negative budget, exactly what Allocation.GrantedExactly says |
| Allocation.ClampToMinima | internal/misc/utils.go:204-231 | the sequence of clamps, as maxima and cut-offs; with Allocation.GrantedExactly for what comes out |
| Allocation.GrantedExactly | internal/misc/utils.go:178-256 | the CPU request is the integer k with k <= budget * weight < k + 1 if that is at least 150m, and 0 otherwise; the memory request is the integer k of the same kind if it is above 127 MB, and 128 MB otherwise; each limit is the largest of its own share, the request and, for CPU, 300m |
| Allocation.TwoCoresForAll | internal/misc/utils.go:54-63 | with everything on and 2000m, the default weights give 420m to Data Updater Plant, 360m to AppEngine API, ..., and 0 to Trigger Engine and the dashboard |
| Allocation.DefaultWeightsAreNormalized | internal/misc/utils.go:54-63 | the eight default weights are positive and sum to one |
| Allocation.WeightsAreConserved | internal/misc/utils.go:258-327 | for every deploy mask the redistributed weights of the counted components sum to exactly one |
| Allocation.DeployedWeights | internal/misc/utils.go:258-352 | over the components really deployed they sum to at most one, and to one if and only if the Flow flag is set |
| Allocation.SharesAlmostExhaustTheBudget | internal/misc/utils.go:244-256 | truncated shares of n components sum to more than the budget minus n and to at most the budget |
| Allocation.RequirementsAreWorkable | internal/misc/utils.go:204-230 | limits cover requests, CPU requests are 0 or at least 150m, CPU limits at least 300m, memory requests at least 128 MB after rounding up to MB |
| Allocation.CpuRequestsFitTheBudget | internal/misc/utils.go:178-238 | clamped CPU requests fit the budget if and only if it is not negative |
| Allocation.RequestsUseTheBudget | internal/misc/utils.go:178-256 | the requests of all counted components sum to the CPU budget less at most 150m each, and to the memory budget less at most a byte or plus at most 128 MB each |
| Allocation.MemoryRequestsFitTheBudget | internal/misc/utils.go:178-238 | clamped memory requests exceed the budget by at most 128 MB per component if and only if it is not negative |
| Allocation.TurningOffHelpsTheOthers | internal/misc/utils.go:289-327 | turning a component off strictly raises every other weight and keeps their differences |
| Allocation.TurningOffLowersNoCpuRequest | internal/misc/utils.go:204-209 | after truncation and cut-off nobody else's CPU request goes down |
| Admission.ValidateCreateAstarteSystemKeyspace | api/api/v2alpha1/astarte_webhook.go:306-370 | no complaint if and only if the keyspace is well-formed; otherwise one list of complaints per entry, and the map of the entries that parsed |
| Admission.ValidateEntry | api/api/v2alpha1/astarte_webhook.go:326-355 | one round of the validator's loop; which complaints it makes is in the four members that follow |
| Admission.WrongFormatExactlyWhen | api/api/v2alpha1/astarte_webhook.go:326-331 | the only complaint is about the format if and only if the entry is not two texts without colon around one colon |
| Admission.DigitsAreReported | api/api/v2alpha1/astarte_webhook.go:333-355 | a number in digits draws no complaint if it fits and is odd, one about being even if it fits and is even, and one about not being an integer if it does not fit |
| Admission.NonsenseIsReportedTwice | api/api/v2alpha1/astarte_webhook.go:336-355 | something that is no number is reported as not an integer and as even |
| Admission.EvenNumbersAreReported | api/api/v2alpha1/astarte_webhook.go:324-355 | for names and numbers that fit, the complaints are exactly those about the even ones, in order |
| Admission.OneDataCenter | internal/reconcile/utils.go:863-900 | the keyspace of one name and one number, written in decimal, draws no complaint if and only if the number is odd, and the unchecked parser reads that number |
| Admission.SpreadIsAdmittedExactlyWhenOdd | internal/reconcile/utils.go:863-900 | the same for any list of data centers: admitted if and only if all numbers are odd, and parsed to the map that was meant, later entries winning |
| Admission.ValidateCreateAstarteInstanceID | api/api/v2alpha1/astarte_webhook.go:145-164 | passes if and only if the resources could be listed and none has the ID |
| Admission.AppendAstarteKeyspaceEnvVars | internal/reconcile/utils.go:863-900 | the unchecked parser's map, or that it indexes out of range |
| Admission.OutOfRangeExactlyWhen | internal/reconcile/utils.go:863-900 | it indexes out of range if and only if some entry has no colon |
| Admission.NoErrorsExactlyWhenGood | api/api/v2alpha1/astarte_webhook.go:324-355 | no complaint about a list of entries if and only if each is a name and an odd number that fits |
| Admission.ReportedTextIsTheEntry | api/api/v2alpha1/astarte_webhook.go:326-355 | each complaint quotes a bad entry as written, and each bad entry is quoted |
| Admission.TrustIsJustified | internal/reconcile/utils.go:863-900 | on what the validator accepts, the unchecked parser stays in range and builds the same map, all values odd |
| Admission.AdmittedRunsAreSafe | api/api/v2alpha1/astarte_webhook.go:79-164 | in every run of admitted requests instance IDs are distinct and every stored keyspace is safe to parse unchecked |
| Admission.AdmittedRunsFreezeIdentity | api/api/v2alpha1/astarte_webhook.go:166-176 | a resource keeps its instance ID and keyspace as long as it exists |
| Text.JoinOfSplit | api/api/v2alpha1/astarte_webhook.go:327-331 | joining the parts of a split gives the string back |
| Text.SplitIsUnique | api/api/v2alpha1/astarte_webhook.go:324-327 | some parts are the split of a string if and only if none contains the separator and joining them gives the string back |
| Text.AtoiOfDigits | api/api/v2alpha1/astarte_webhook.go:336-336 | a text of digits is parsed to its decimal value if that fits a signed 64-bit integer and is out of range, with the largest value, otherwise |
| Text.AtoiOfSigned | api/api/v2alpha1/astarte_webhook.go:336-336 | a plus changes nothing; a minus gives the negated value down to the smallest integer |
| Text.AtoiOfOthers | api/api/v2alpha1/astarte_webhook.go:336-336 | anything else is malformed, unless the digits in front are already out of range |
| Checksums.SortStrings | internal/reconcile/cfssl.go:474-474 | sorts in place: ordered, and a permutation of what was there |
| Checksums.BelowExactlyWhen | internal/reconcile/cfssl.go:474-474 | the order is that of Go's strings: one begins the other, or the first characters that differ decide |
| Checksums.GetChecksumForConfigMap | internal/reconcile/cfssl.go:467-486 | for any iteration order the hashed text is the values in the order of the sorted keys |
| Checksums.SortedOrderIsUnique | internal/reconcile/cfssl.go:470-479 | two sorted enumerations of the same keys are equal |
| Checksums.ChecksumIgnoresIterationOrder | internal/reconcile/cfssl.go:467-486 | the hashed text is a function of the map |
| Checksums.EqualTextsMeanEqualMaps | internal/reconcile/cfssl.go:467-486 | if no value is empty or begins another, equal hashed texts mean equally many values and, for the same keys, equal maps |
| Json.ObjectsDoNotBegin | internal/reconcile/cfssl.go:351-372 | the text that marshalling makes of a JSON object never properly begins that of another |
| Checksums.ConfigurationsAreToldApart | internal/reconcile/cfssl.go:278-330 | for the ConfigMaps that the operator makes the hashed texts are equal if and only if the ConfigMaps are |
| Checksums.ChecksumMissesMovedText | internal/reconcile/cfssl.go:476-479 | for arbitrary maps they need not be |
| FlowNames.WorkerNamesMeetExactlyWhen | internal/flow/block.go:275-286 | workers of two blocks can have the same name if and only if one block's ID goes on like the other's followed by a dash |
| FlowNames.BlockNameIsAWorkerNameExactlyWhen | internal/flow/block.go:262-286 | a block has the name of some worker of another if and only if its ID goes on like that |
| FlowNames.NamesAreInjective | internal/flow/block.go:262-286 | otherwise names tell blocks and workers apart |
| FlowNames.NamesMeetExactlyWhenFlowsClash | internal/flow/block.go:262-286 | a name can begin like the objects of two flows if and only if the flows' names are equal or one goes on like the other with a block |
| FlowBlocks.GetFlowWorkerContainers | internal/flow/block.go:146-174 | all workers' Secrets are put, what is left over are the existing ones that no worker names, and there is one container per worker, in order (FlowBlocks.SuccessRenders) |
| FlowBlocks.DeleteSecrets | internal/flow/block.go:133-141 | whatever order the map yields, success deletes exactly the given Secrets, and at no time any other |
| FlowBlocks.EnsureBlock | internal/flow/block.go:41-144 | on success exactly the leftovers under the block's labels are gone; at any time nothing else has been deleted |
| FlowBlocks.EnsureBlocks | internal/controller/flow/flow_controller.go:76-83 | the loop over the blocks, and which existing Deployments it leaves over |
| FlowBlocks.Reconcile | internal/controller/flow/flow_controller.go:53-117 | on success the Deployments and Secrets are a function of the earlier ones and the Flow, each block's Deployment carries its labels and one container per worker, and Secrets hold their configurations where names do not meet; every state in the log is one of those described, and only unnamed Deployments and leftover Secrets are ever deleted |
| FlowBlocks.SuccessRenders | internal/flow/block.go:84-174 | for the last block with its ID, the Deployment under its name carries flow and block ID and, in order, exactly one container for each worker |
| FlowBlocks.SuccessFills | internal/flow/block.go:41-174 | with IDs of which none goes on like another followed by a dash, its Secret holds its configuration, and the Secret of each worker that is the last with its ID that worker's |
| FlowBlocks.AfterBlockIsExact | internal/flow/block.go:76-141 | an ensured block leaves exactly the Secrets of its workers and those of other blocks alone |
| FlowBlocks.EveryStateIsCoherent | internal/flow/block.go:41-144 | with IDs of which none goes on like another followed by a dash, at every state of a reconcile, finished or not, names tell the labels, and if labels told the names before, they still do |
| FlowBlocks.SuccessLeavesExactlyWhatIsNamed | internal/controller/flow/flow_controller.go:76-91 | success leaves exactly the Deployments of the blocks and, per block ID, the Secrets of the workers of its last block |
| FlowBlocks.NamedIsSafeExactlyWhen | internal/flow/block.go:133-141 | with IDs of which none goes on like another followed by a dash, and all named Secrets there, none of these is deleted if and only if blocks with the same ID have the same workers; and then never |
| FlowBlocks.SharedIdDeletesNamedSecret | internal/flow/block.go:133-141 | two blocks with one ID and different workers: a named Secret is deleted |
| FlowBlocks.OtherFlowsKeepOut | internal/controller/flow/flow_controller.go:53-117 | at every state of the reconcile of a flow whose name does not clash, another flow's names still tell its labels and its worker Secrets are as they were |
| FlowBlocks.FlowsDisturbExactlyWhenTheyClash | internal/flow/block.go:262-286 | for two flows, some reconcile of the one puts wrong labels behind names of the other if and only if the flows' names clash |
| FlowBlocks.ClashingFlowsMixLabels | internal/flow/block.go:262-286 | for every clashing pair a single block does that, starting from no Secrets |
| FlowBlocks.DashesDeleteNamedSecret | internal/flow/block.go:133-141 | for every pair of IDs of which one goes on like the other followed by a dash, and every worker: after a reconcile with the shorter one, a reconcile with both deletes a named Secret |
| FlowBlocks.IdsAreSafeExactlyWhen | internal/flow/block.go:76-141 | for any set of block IDs: some history of finished and interrupted reconciles lets a reconcile delete a named worker's Secret if and only if one of the IDs goes on like another followed by a dash |

## Left out

- The API server, caches, watches, events, logging and retry back-off: a call reads current state, a
  create-or-update is one call, `DeleteAllOf` is atomic, and a `RetryOnConflict` around reading and
  writing the status is one call. One reconcile runs at a time per resource.
- Cryptography and randomness: key pairs, certificates, cookies and the CA are tokens never used before;
  SHA-256 is applied to the text the checksum model computes and is not modelled. The CFSSL Deployment
  carries the ConfigMap's contents in place of the checksum.
- Contents of objects other than references, queue ranges and the specification they were rendered from:
  environment lists, probes, affinity, RBAC rules, services, ingresses, dashboard and CFSSL JSON. The
  specification keeps the fields that steer control flow.
- Failures of preparing contents before a write, such as generating a key, marshalling JSON or the CFSSL
  configuration: they end a reconcile where a failed call at the same place would.
- References to users' own Secrets, to `imagePullSecrets` and to service accounts: only what the operator
  generates is tracked. Indexed DUP Deployments name service accounts that only the single-replica path creates.
- Replica counts taken from an autoscaler: calls without influence on which objects exist. Pods are not in
  the store either; their deletion is a call that can fail.
- Volume claims are only ever deleted: neither their creation by StatefulSets nor other kinds of volumes
  are in the model. They are listed in the order of names.
- The health in the final status is computed within the one call that writes it; for the gate each of its
  calls is separate.
- JSON text as Go's encoder writes it, except that characters beyond ASCII stand for themselves.
- A flow's reconciles run without anybody else acting; what other flows do is stated separately.
- Users' Secrets all look alike, and their names differ from the names that the operator generates.
- Other actors never handle the operator's finalizer and never change objects the operator manages.
- Semantic versions: whether a version is supported is a parameter.
- Floating point, quantity formats and 32-bit overflow in the allocator: exact reals and unbounded
  integers; `Quantity.ScaledValue` rounds up.
- Reported status fields other than version and health, also where an empty status resets them in the
  caller's copy, and Flow's status.
- Owner references, and so the garbage collection after the resource is gone.
- Removing a block from a Flow leaves its Secrets to owner garbage collection, as in the code.
- Interruptions.CanStopAfter: only for specifications that name no CA Secret, so that a reconcile can succeed.
