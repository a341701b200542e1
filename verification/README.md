# TAMOSS operator: a verified model

TAMOSS is a Kubernetes operator. Its controllers decide by reading objects that other
parties change at the same time, write those objects one at a time, and can be stopped
between any two writes. This project models the parts of the operator where that is hard to
get right and proves what they keep:

- **Schema migration** (`SchemaMigration`, `SchemaRuns`): the stages of one reconcile over
  Jobs, Pods and the state ConfigMap, and every run of reconciles, crashes, release changes
  and Job or Pod events.
- **Ingest runs** (`IngestRun`, `IngestRunHistory`, `CancelCommand`): one non-idempotent Job
  for each run, evidence from the finished Pod, cancellation, and the Console command that
  races the controller through optimistic locking.
- **Hibernation and resume** (`ArtifactPrefix`, `ArtifactRetention`, `RetentionPass`,
  `RetentionRuns`, `HibernationCycle`): the lifecycle record that tracks restored artifacts,
  the pass that retains or deletes them, the object-store prefix that is deleted, and the
  numbered operations of spec-driven hibernation.
- **Console runtime** (`Monitor`, `MonitorRuns`, `Base64`, `Cursor`, `Pagination`,
  `JobRanking`, `RunCache`, `RunSnapshot`): the latest-value monitor with channels of capacity
  one, cursor pagination over a paged backend, and the bounded validation cache over live
  reads of the runs that the best-ranked Jobs refer to.
- **Flow profiles** (`FlowProfileClaims`, `FlowProfileRuns`): the election among profiles that
  claim one UUID, and their finalisers.
- **Managed objects** (`FieldOwnership`, `FieldReclaim`, `MergePatch`, `AdvancedPatches`):
  reclaiming server-side-apply claims, and JSON merge patches.

A controller is modelled in two layers. A pure function decides from what was read
(`Decide`, `Judge`, `Finalise`), and a class or method with the source's loops and branches is
proved to do what that function says. A second module then puts the decision into a state
machine whose steps are: read, commit one write, crash, and anything the environment may do.
The theorems there are about every state of every run: what always holds, and what can still be
reached from wherever the run is. Lemmas named `...Exactly` or `...Outcome` say of one decision
which case leads where, in terms of what was read, so that the decision function is fixed from
both sides.

`dafny verify dfyconfig.toml` checks the whole project.

## What the model assumes

- Reads return current objects, and one reconcile at a time handles one object, as the
  work queue guarantees. Writes are atomic API calls. A conflicting lifecycle patch is
  re-read and re-applied, so a lifecycle mutation is one atomic step on the current record.
- Only the schema controller writes the state ConfigMap. A Pod is created only for a Job that
  exists. UIDs and resource versions are never reused.
- Immutable spec fields and the rule that a cancelled run stays cancelled are enforced on
  admission.
- AES-GCM opens exactly what it sealed, SHA-256 does not collide, and the JSON codec of the
  cursor payload reads back what it wrote. These appear as hypotheses (`Cursor.Ideal`).
- The event reducer, the release catalogue, admission gates and the hibernate operation's own
  reconciler are parameters or environment steps.
- I/O, clocks, nonces and answers of the cluster are parameters.

## What the proofs found

- The failure counter of the schema controller counts reconciles that see a failed Job, not
  attempts, although its status text speaks of attempts: one failed Job blocks the migration
  after three reconciles (`OneFailedJobBlocks`).
- An ingest run can create a second Job if its first Job disappears before its name reaches
  the status; nothing else allows it (`AtMostOneJob`, `SecondJobPossible`).
- A time-to-live above 9223372036 seconds overflows and deletes early; up to that bound
  deletion happens exactly when the time has elapsed (`TtlHonouredExactly`).
- The recorded fixtures flag says whether fixtures ran, except in one case: a Job that succeeded
  with fixtures leaves the cluster before any version is recorded, for example because fixtures
  were switched off and the Job became stale, and a plain Job is recorded
  (`FixturesFlagExactly`, `FixturesForgotten`).
- A cancelled run leaves no Pod of any Job it created, unless it created two; then a Pod of the
  lost one can remain (`CancelledMeansGone`, `CancelledBesideLostPod`).
- Retention work can be lost in one way: an artifact is resumed, then restored again, and that
  second restore is replaced before it finishes (`BootstrapConservesExactly`,
  `CanLoseCleanup`).
- Manifest keys that differ only in surrounding white space share a deleted prefix
  (`SamePrefixExactly`). The prefix is trimmed and the stored key is not, so for a key that
  begins with white space the cleanup completes without reaching its own manifest
  (`DeletionReach`).
- Retrying a finished hibernation operation overlaps no other exactly when none is unfinished,
  and it is the next one, or the latest one and the driver has not yet decided to create its
  successor (`RetryHarmlessExactly`). Otherwise two can be unfinished, also when the latest one
  is retried before its successor exists (`RetryCanOverlap`, `RetryOfLatestCanOverlap`). An
  abort can reach a user's operation only if it took the name between the read and the delete
  (`UserOperationsLeftAlone`).
- A deletion Job for a flow profile can be launched although another live profile claims the
  UUID, only if that one was created after the claims were listed (`LaunchRivalsAreLate`,
  `LateClaimMissed`).
- Reclaiming loses a claim only where one manager claims below a key and another has a value
  there that is not an object, which the API server does not store (`ClaimsConserved`,
  `ClaimCanBeLost`).
- A cursor whose payload exceeds 12259 bytes is handed out but never accepted back
  (`Cursor.RoundTrip`).
- A patch with `metadata: null`, or any `metadata` that is not an object, passes validation
  and drops the object's name (`KeepsIdentityExactly`).
- The JSON merge differs from section 2 of RFC 7396 exactly where an object with null members
  meets no object to merge into (`MergeMatchesRfc`).

## Model

| member | source | states |
|---|---|---|
| `SchemaMigration.TemplateDrifted` | operator/internal/controller/schema_controller.go:326-343 | drift is reported exactly when image, command, args, env, mounts, volumes or the number of containers differ, whatever the server defaulted |
| `SchemaMigration.RenderDeterminesFixtures` | operator/internal/controller/schema_controller.go:720-729 | a Job matching a render ran fixtures exactly when the render asked for them |
| `SchemaMigration.RenderTellsApart` | operator/internal/controller/schema_controller.go:689-729 | two renders count as the same exactly when revision, fixtures, ownership step, image, environment, mounts and volumes agree |
| `SchemaMigration.DeleteObsoleteJobs` | operator/internal/controller/schema_controller.go:233-277 | every owned Job of another name is marked for deletion, no other Job is touched, and waiting is reported exactly when there was one |
| `SchemaMigration.SchemaController.Reconcile` | operator/internal/controller/schema_controller.go:72-111 | one uninterrupted reconcile performs exactly the writes of the stage that applies first |
| `SchemaMigration.SchemaController.AcceptSchemaRetry` | operator/internal/controller/schema_controller.go:415-433 | a retry deletes the failed Job of the desired name and resets the failure fields while marking the value consumed |
| `SchemaMigration.SchemaController.ReconcileJob` | operator/internal/controller/schema_controller.go:158-231 | a Job of the desired name is deleted if stale, recorded if succeeded, counted if failed, else left running |
| `SchemaMigration.SchemaController.PodCleanup` | operator/internal/controller/schema_controller.go:279-300 | cleanup waits exactly while a labelled Pod controlled by some Job remains |
| `SchemaMigration.OneFailedJobBlocks` | operator/internal/controller/schema_controller.go:345-372 | one failed Job left alone blocks after three reconciles without a second launch, and not before |
| `SchemaMigration.RetryUnblocks` | operator/internal/controller/schema_controller.go:178-205 | an accepted retry ends the block, and once Pods are gone the next reconcile launches the current render |
| `SchemaMigration.OtherJobExactly` | operator/internal/controller/schema_controller.go:233-277 | a controlled Job of another name is marked for deletion and nothing else happens, one that is not controlled is never touched, and a schema that cannot be migrated is left alone |
| `SchemaMigration.UpgradeLaunches` | operator/internal/controller/schema_controller.go:128-156 | with nothing recorded, or a version recorded from which the target can be reached, and no Job, Pod or retry in the way, one reconcile creates the Job of the target's render |
| `SchemaMigration.RetryIsAccepted` | operator/internal/controller/schema_controller.go:415-433 | after three failures of this version and generation a new retry value is accepted at once: consumed, failures forgotten, failed Job gone, recorded version kept |
| `SchemaRuns.RunInv` | operator/internal/controller/schema_controller.go:72-111 | every state of every run keeps the invariant that ties Jobs, Pods, the state ConfigMap and a pending plan to the history of writes |
| `SchemaRuns.MutualExclusion` | operator/internal/controller/schema_controller.go:207-300 | in every run at most one owned migration Job exists and all migration Pods belong to one Job |
| `SchemaRuns.LaunchIntoVacancy` | operator/internal/controller/schema_controller.go:400-413 | a launch happens only when no owned Job and no Pod of an earlier migration Job is left |
| `SchemaRuns.TruthfulStamp` | operator/internal/controller/schema_controller.go:158-176 | a recorded version was the target when a succeeded Job, rendered exactly for that target and spec, stood in the cluster |
| `SchemaRuns.SupportedUpgradesOnly` | operator/internal/controller/schema_controller.go:128-156 | the recorded version only moves to a different target, from nothing, from a blank version, from the same version or from the predecessor that target names |
| `SchemaRuns.TargetReachable` | operator/internal/controller/schema_controller.go:72-156 | no dead end: from every state of every run in which the target can be migrated to, whatever Jobs, Pods, failures and retries there are, some continuation records it |
| `SchemaRuns.FixturesFlag` | operator/internal/controller/schema_controller.go:467-484 | the fixtures flag is true exactly when a recorded Job, and so the first recorded one, ran with fixtures, and never reverts |
| `SchemaRuns.FixturesFlagExactly` | operator/internal/controller/schema_controller.go:158-231 | with a version recorded, the flag tells whether any Job succeeded with fixtures if and only if it is set or no such Job left the cluster before anything was recorded |
| `SchemaRuns.FixturesForgotten` | operator/internal/controller/schema_controller.go:207-231 | that condition cannot be dropped: a run whose fixtures ran and whose flag is false |
| `SchemaRuns.FixturesOnce` | operator/internal/controller/schema_controller.go:82-100 | no Job launched after a version was recorded loads fixtures |
| `SchemaRuns.FailureCounter` | operator/internal/controller/schema_controller.go:640-669 | the stored counter is the length of the current failure streak, between 1 and 3, and blocks exactly at 3 for the current version and generation |
| `SchemaRuns.RetryConsumedOnce` | operator/internal/controller/schema_controller.go:523-549 | between two acceptances of one retry value another value was accepted, across failures, successes and crashes |
| `IngestRun.CheckDigestVerified` | operator/internal/controller/ingestrun_controller.go:905-923 | a result is accepted exactly when it is flagged verified, named, typed, not empty and carries 64 lower-case hex digits |
| `IngestRun.CountFinished` | operator/internal/controller/ingest_stream.go:81-125 | completed inputs are those marked finished |
| `IngestRun.LatestIsLast` | operator/internal/controller/ingest_stream.go:229-255 | the selected termination finished last, the first listed winning a tie |
| `IngestRun.TerminalPodResult` | operator/internal/controller/ingest_stream.go:229-255 | the loop selects that termination among the TAMSin containers of the Job's own Pods |
| `IngestRun.TerminationsExactly` | operator/internal/controller/ingest_stream.go:229-255 | those terminations are exactly the TAMSin containers that terminated in Pods the Job owns, each with its Pod's log |
| `IngestRun.DecodeStream` | operator/internal/controller/ingest_stream.go:81-125 | a log is complete only if it reduces to a finished run within the status bounds, its finished inputs counted |
| `IngestRun.CollectStream` | operator/internal/controller/ingest_stream.go:201-225 | the stream is the log of the Pod that ended last, complete only if valid and with the exit code of its container |
| `IngestRun.RunStatus.SetJobPhase` | operator/internal/controller/ingestrun_controller.go:729-798 | the status fields set one by one: summary first, success held back for an unverified result, timestamps set once |
| `IngestRun.RunStatus.ApplyStreamSummary` | operator/internal/controller/ingest_stream.go:257-271 | the summary replaces the progress and never lowers the event sequence |
| `IngestRun.IngestRunPodsRemain` | operator/internal/controller/ingestrun_controller.go:681-696 | Pods remain exactly when a labelled one belongs to the recorded Job, or to any if none is recorded |
| `IngestRun.IngestRunReconciler.Reconcile` | operator/internal/controller/ingestrun_controller.go:138-284 | one uninterrupted reconcile performs exactly the decided writes |
| `IngestRun.IngestRunReconciler.ReconcileCancellation` | operator/internal/controller/ingestrun_controller.go:654-679 | cancellation deletes the Job, waits for its Pods, then marks the run Cancelled |
| `IngestRun.IngestRunReconciler.Follow` | operator/internal/controller/ingestrun_controller.go:186-198 | a Job that exists is followed by the specified plan, whose outcome `IngestRun.FinishedJobOutcome` and `IngestRun.UnfinishedOutcome` state case by case |
| `IngestRun.SuccessNeedsEvidence` | operator/internal/controller/ingestrun_controller.go:849-881 | a success is decided only on convincing evidence read in that very reconcile |
| `IngestRun.EvidenceDecides` | operator/internal/controller/ingestrun_controller.go:849-881 | one reconcile of a live run with its Job and target succeeds, fully or partially, if and only if the evidence for that is convincing |
| `IngestRun.FinishedJobOutcome` | operator/internal/controller/ingestrun_controller.go:186-198 | what a finished Job comes to: no log waits until the deadline, a bad log or a wrong exit code fails at once, a sound log fills in progress, run id and sequence and decides the phase, an unverified result waiting until the deadline |
| `IngestRun.UnfinishedOutcome` | operator/internal/controller/ingestrun_controller.go:138-284 | every other case: a foreign Job, cancellation with and without Job or Pods, a missing target, a running or waiting Job, a vanished Job, a refused and an admitted start |
| `IngestRun.DeadlineForcesTerminal` | operator/internal/controller/ingestrun_controller.go:827-903 | fifteen minutes after a timestamped finish a reconcile with its Job and target ends terminal |
| `IngestRun.RecordedJobNeverReplaced` | operator/internal/controller/ingestrun_controller.go:331-347 | a recorded Job that vanished fails the run and is never created again |
| `IngestRunHistory.UninterruptedReconcile` | operator/internal/controller/ingestrun_controller.go:277-283 | the writes of a plan committed in turn amount to one call of the reconciler |
| `IngestRunHistory.RunInv` | operator/internal/controller/ingestrun_controller.go:138-284 | every state of every run keeps the invariant on Jobs, status and pending plan |
| `IngestRunHistory.AtMostOneJob` | operator/internal/controller/ingestrun_controller.go:156-201 | two Jobs are created only if the first vanished before its name was recorded |
| `IngestRunHistory.SecondJobPossible` | operator/internal/controller/ingestrun_controller.go:277-283 | that condition cannot be dropped: a run in which a second Job is created beside a Pod of the first |
| `IngestRunHistory.TerminalAbsorbing` | operator/internal/controller/ingestrun_controller.go:148-162 | after a terminal phase nothing of the outcome changes and no Job is created |
| `IngestRunHistory.SequenceNeverFalls` | operator/internal/controller/ingest_stream.go:257-271 | the recorded event sequence never falls in any run |
| `IngestRunHistory.CompletedExactlyWhenTerminal` | operator/internal/controller/ingestrun_controller.go:729-810 | CompletedAt is set exactly in terminal phases; a run with invalid output intent never leaves Pending |
| `IngestRunHistory.CancelledMeansGone` | operator/internal/controller/ingestrun_controller.go:654-705 | from Cancelled on, no created Job exists, no Pod of the recorded Job, none of any created Job unless there were two, and none is created |
| `IngestRunHistory.CancelledBesideLostPod` | operator/internal/controller/ingestrun_controller.go:681-696 | with two Jobs created a run can be Cancelled beside a Pod of the first |
| `IngestRunHistory.TerminalLeavesNoLiveJob` | operator/internal/controller/ingestrun_controller.go:352-381 | a terminal run leaves no Job of its own that is neither finished nor being deleted, in every run where finished and deleted Jobs stay so |
| `IngestRunHistory.EvidenceRead` | operator/internal/controller/ingestrun_controller.go:186-198 | the Job, Pods with their logs, and result behind a decision stood together in one earlier state |
| `IngestRunHistory.SuccessIsConvincing` | operator/internal/controller/ingestrun_controller.go:849-923 | a successful run read, in one earlier state, its finished Job, in the log of its last Pod a complete valid stream with the container's exit code, and no unverified result |
| `IngestRunHistory.EvidenceIsActedOn` | operator/internal/controller/ingestrun_controller.go:186-198 | whenever convincing evidence stands in a run that is live and has its target, the next uninterrupted reconcile records that success |
| `IngestRunHistory.SuccessReachable` | operator/internal/controller/ingestrun_controller.go:138-284 | from every state of every run that is live, uncancelled and has its own Job or recorded none, some continuation succeeds |
| `IngestRunHistory.CancellationReachable` | operator/internal/controller/ingestrun_controller.go:654-679 | from every state of every live run some continuation is Cancelled |
| `CancelCommand.CommitsToNamedRevision` | operator/internal/consoleapi/command_api.go:207-275 | a non-replayed success committed to the named UID and revision while the run was active, changing nothing else |
| `CancelCommand.AcceptedIsForGood` | operator/internal/consoleapi/command_api.go:207-275 | after any success answer the named run stays cancelled as long as it exists |
| `CancelCommand.AnswersAreTruthful` | operator/internal/consoleapi/command_api.go:207-275 | every refusal and every success is true of the run at the step that gives it; in which case each is given is `CancelCommand.ReadExactly` |
| `CancelCommand.AnswersStay` | operator/internal/consoleapi/command_api.go:207-275 | an answer, once given, is final |
| `CancelCommand.ReadExactly` | operator/internal/consoleapi/command_api.go:225-252 | each refusal, the replay and the way on to the patch is taken exactly in its case; a cancelled run of the named instance and UID is a replay whatever its revision |
| `CancelCommand.RepeatIsReplayed` | operator/internal/consoleapi/command_api.go:236-242 | in every run, once a command was accepted the same request is answered as a replay for as long as the run exists, and changes nothing |
| `CancelCommand.UndisturbedIsAccepted` | operator/internal/consoleapi/command_api.go:243-275 | a command naming a live run as it is, with no write to the run in between, is accepted and cancels it |
| `CancelCommand.UnavailableExplained` | operator/internal/consoleapi/command_api.go:207-275 | the command is called unavailable only after a failed call or when the run vanished |
| `ArtifactPrefix.ArtifactRootPrefix` | operator/internal/controller/tamoss_hibernation_cleanup.go:277-301 | the walk over the key's segments yields the specified prefix or rejects |
| `ArtifactPrefix.AcceptedKeys` | operator/internal/controller/tamoss_hibernation_cleanup.go:277-301 | a key is accepted exactly when it is a path of safe segments ending in the manifest name |
| `ArtifactPrefix.SafePathAccepted` | operator/internal/controller/tamoss_hibernation_cleanup.go:277-301 | such a path yields its directory as the prefix |
| `ArtifactPrefix.CoversExactlyBeneath` | operator/internal/controller/tamoss_hibernation_cleanup.go:182-187 | the deleted prefix covers another root's manifest exactly when that root is the same path or beneath it |
| `ArtifactPrefix.SamePrefixExactly` | operator/internal/controller/tamoss_hibernation_cleanup.go:277-301 | two accepted keys share a prefix exactly when they agree up to surrounding white space |
| `ArtifactPrefix.CoversStored` | operator/internal/controller/tamoss_resume_bootstrap.go:191 | the same for a manifest stored under its untrimmed key, which must not begin with white space |
| `ArtifactPrefix.SiblingsNeverCovered` | operator/internal/controller/tamosshibernate_controller.go:367-376 | two operations under one destination never cover each other's manifest |
| `ArtifactRetention.ResolveRestoreKeeps` | operator/internal/controller/tamoss_resume_bootstrap.go:92-108 | resolving a restore keeps identities unique and carries exactly the unfinished previous artifact over |
| `ArtifactRetention.RecordCleanupKeeps` | operator/internal/controller/tamoss_hibernation_cleanup.go:216-244 | recording keeps the record well formed and drops at most the finished identity |
| `RetentionPass.TtlHonouredExactly` | operator/internal/controller/tamoss_hibernation_cleanup.go:161-175 | deletion falls due exactly when the time has elapsed, for every clock, if and only if the seconds fit in 64 bits of nanoseconds |
| `RetentionPass.DeletesExactlyWhenDue` | operator/internal/controller/tamoss_hibernation_cleanup.go:101-187 | objects are deleted exactly when cleanup is open, the artifact was resumed, the policy asks for it by now and the key names a root; Retained is noted exactly under the policy to retain |
| `RetentionPass.OwedEffectExactly` | operator/internal/controller/tamoss_hibernation_cleanup.go:136-212 | for a resumed artifact with open cleanup: Blocked exactly without a suitable backend, usable key, positive time-to-live or known mode; Retained exactly under Retain; Completed exactly when due and deleted; else Scheduled, after a failed deletion for one minute and before the due time for exactly the time left |
| `RetentionPass.OtherEffectExactly` | operator/internal/controller/tamoss_hibernation_cleanup.go:101-135 | for every other artifact: nothing, the restore noted with a ten-second wait, or an error that leaves the record alone |
| `RetentionPass.FailedDeletionRetried` | operator/internal/controller/tamoss_hibernation_cleanup.go:182-201 | after a failed deletion the artifact stays recorded with open cleanup, is due again in a minute, and the next deletion that succeeds completes it |
| `RetentionPass.SpliceCleanup` | operator/internal/controller/tamoss_hibernation_cleanup.go:224-235 | the splice removes or updates the entry of this identity and nothing else |
| `RetentionPass.PassIsPointwise` | operator/internal/controller/tamoss_hibernation_cleanup.go:80-99 | up to the first error every pending entry is handled exactly once on its own answers, the rest is untouched, and the smallest positive wait is returned |
| `RetentionPass.AnsweredPassIsPointwise` | operator/internal/controller/tamoss_hibernation_cleanup.go:80-212 | that holds of the controller's own pass, whatever the cluster and the object store answer |
| `RetentionPass.RetentionController.RecordArtifactCleanup` | operator/internal/controller/tamoss_hibernation_cleanup.go:216-244 | the outcome lands on the resolved artifact or is spliced into the pending list |
| `RetentionPass.RetentionController.ReconcileArtifactRetention` | operator/internal/controller/tamoss_hibernation_cleanup.go:101-150 | the branches on cleanup phase, resume, database and backend change the record by the judged effect of this artifact alone |
| `RetentionPass.RetentionController.ApplyRetentionMode` | operator/internal/controller/tamoss_hibernation_cleanup.go:152-180 | the switch on the retention mode and the time-to-live wait do what the verdict on the mode says |
| `RetentionPass.RetentionController.DeleteResumeArtifact` | operator/internal/controller/tamoss_hibernation_cleanup.go:182-212 | an unusable key records Blocked, a failed deletion records Scheduled and waits sixty seconds, a successful one records Completed, and a failed write changes nothing and reports the error |
| `RetentionPass.RetentionController.ReconcileResumeArtifactRetention` | operator/internal/controller/tamoss_hibernation_cleanup.go:80-99 | the loop over the snapshot of the list computes the specified pass, errors included |
| `RetentionRuns.BootstrapConservesExactly` | operator/internal/controller/tamoss_resume_bootstrap.go:92-108 | a bootstrap loses no owed cleanup if and only if it does not replace an open restore by another artifact |
| `RetentionRuns.UninterruptedHandle` | operator/internal/controller/tamoss_hibernation_cleanup.go:101-212 | the steps that handle one artifact, uninterrupted, have the judged effect on the record |
| `RetentionRuns.UninterruptedPass` | operator/internal/controller/tamoss_hibernation_cleanup.go:80-99 | the steps of a whole pass, uninterrupted, lead to the record the controller's loop computes, stopping where it stops |
| `RetentionRuns.IdentitiesUnique` | operator/internal/controller/tamoss_resume_bootstrap.go:92-108 | in every run no identity is tracked twice and every pending entry was resumed |
| `RetentionRuns.NeverDeletesOpenRestore` | operator/internal/controller/tamoss_hibernation_cleanup.go:101-187 | in every run, from deleting objects to recording it, the artifact is tracked, resumed and not the source of an open restore |
| `RetentionRuns.DeletesOnlyWhenDue` | operator/internal/controller/tamoss_hibernation_cleanup.go:136-175 | in every run objects are deleted only for a recorded, resumed artifact whose policy asks for it by then |
| `RetentionRuns.RetentionConserved` | operator/internal/controller/tamoss_hibernation_cleanup.go:74-99 | in every run a resumed artifact stays tracked until Retained or its objects deleted, unless its latest restore was superseded, and everything outstanding is owed |
| `RetentionRuns.NeverSuperseded` | operator/internal/controller/tamoss_resume_bootstrap.go:40-114 | if no bootstrap replaces an open restore, everything owed is tracked |
| `RetentionRuns.CanLoseCleanup` | operator/internal/controller/tamoss_resume_bootstrap.go:96-102 | without that condition a run loses an owed artifact |
| `RetentionRuns.DeletionReach` | operator/internal/controller/tamoss_hibernation_cleanup.go:182-187 | the prefix deleted for one identity reaches another's stored manifest exactly when its root lies at or beneath it and its key does not begin with white space |
| `RetentionRuns.OpenRestoreReached` | operator/internal/controller/tamoss_hibernation_cleanup.go:182-187 | in every run the artifact being deleted is not the open restore, and reaches its manifest exactly when that restore's root lies at or beneath |
| `HibernationCycle.HibernationDriver.ReconcileHibernationSpec` | operator/internal/controller/tamoss_hibernation_driver.go:26-42 | the driver performs exactly the decided writes |
| `HibernationCycle.HibernationDriver.EnsureHibernationCycleOperation` | operator/internal/controller/tamoss_hibernation_driver.go:48-108 | the next numbered operation is created and recorded, or only recorded after a crash, unless one is in flight |
| `HibernationCycle.HibernationDriver.RecordHibernationCycle` | operator/internal/controller/tamoss_hibernation_driver.go:110-117 | the counter is raised and never lowered |
| `HibernationCycle.HibernationDriver.AbortSpecHibernation` | operator/internal/controller/tamoss_hibernation_driver.go:119-142 | only a controlled operation that is not already going is deleted |
| `HibernationCycle.DrivesSpec` | operator/internal/controller/tamoss_hibernation_driver.go:26-142 | one reconcile starts and records the next cycle exactly when hibernation is enabled in an unset or running phase with a destination and nothing in flight, deletes the active operation of its own while hibernating and disabled, and otherwise changes nothing |
| `HibernationCycle.UninterruptedReconcile` | operator/internal/controller/tamoss_hibernation_driver.go:100-107 | the writes committed in turn amount to one call |
| `HibernationCycle.AtMostOneInFlight` | operator/internal/controller/tamoss_hibernation_driver.go:44-117 | in every run at most one created operation is unfinished, provided every retry of one is harmless |
| `HibernationCycle.RetryHarmlessExactly` | operator/internal/controller/tamoss_hibernation_driver.go:54-77 | a retry is followed by no overlap, in any course without another retry, if and only if nothing is unfinished and it is the next operation, or the latest with no successor decided on |
| `HibernationCycle.NumbersNeverReused` | operator/internal/controller/tamoss_hibernation_driver.go:66-74 | the counter never goes back and a new operation's number exceeds every recorded one, up to the 32-bit limit |
| `HibernationCycle.UserOperationsLeftAlone` | operator/internal/controller/tamoss_hibernation_driver.go:119-142 | an abort hits a user's operation only if it took the name between the read and the delete |
| `HibernationCycle.RetryCanOverlap` | operator/internal/controller/tamoss_hibernation_driver.go:54-65 | retrying an earlier operation after its successor was created leaves two unfinished |
| `HibernationCycle.RetryOfLatestCanOverlap` | operator/internal/controller/tamoss_hibernation_driver.go:66-107 | so does retrying the latest one, no successor existing, once the driver has decided to create it |
| `Monitor.Monitor.Deliver` | operator/internal/consoleapi/monitor.go:123-135 | whatever receivers do, the second send finds the channel empty and leaves this update or nothing |
| `Monitor.Monitor.PublishLocked` | operator/internal/consoleapi/monitor.go:123-135 | every subscriber is left with this update or has taken it |
| `Monitor.Monitor.Refresh` | operator/internal/consoleapi/monitor.go:59-80 | a read becomes the current snapshot, observation time included, and is ready; a failure keeps content and time and marks it stale; the number moves, and subscribers hear of it, exactly on a first snapshot, a change of content, or a change of staleness |
| `Monitor.Monitor.MarkStale` | operator/internal/consoleapi/monitor.go:82-93 | a fresh snapshot is published once as stale |
| `Monitor.Monitor.Subscribe` | operator/internal/consoleapi/monitor.go:104-121 | a new subscriber finds the current snapshot waiting under the current number |
| `MonitorRuns.FinalSendNeverBlocks` | operator/internal/consoleapi/monitor.go:123-135 | in every interleaving the send after draining is possible at once |
| `MonitorRuns.ReceivedInOrder` | operator/internal/consoleapi/monitor.go:59-135 | each subscriber receives strictly increasing numbers of updates that were published |
| `MonitorRuns.LatestOrReceived` | operator/internal/consoleapi/monitor.go:104-135 | between publishes a channel holds the latest update or the subscriber has it |
| `MonitorRuns.EqualNumbersAgree` | operator/internal/consoleapi/monitor.go:59-121 | updates of one number agree apart from the observation time |
| `MonitorRuns.PublishesChangesOnly` | operator/internal/consoleapi/monitor.go:59-102 | consecutive updates differ, numbers have no gaps, and ready holds exactly with a snapshot that is not stale |
| `MonitorRuns.CurrentIsLastRead` | operator/internal/consoleapi/monitor.go:59-93 | in every run the current snapshot is the last one read, observation time included, stale exactly when a read failed since |
| `MonitorRuns.NothingBeforeFirstRead` | operator/internal/consoleapi/monitor.go:82-93 | until a read succeeds there is no snapshot and no update |
| `MonitorRuns.PublishesEveryChange` | operator/internal/consoleapi/monitor.go:68-92 | a read publishes exactly when it is the first, changes the content or ends a stale spell, and a failure exactly when it starts one |
| `Base64.RoundTrip` | operator/internal/consoleapi/ingestrun_read.go:405-415 | unpadded base64url decodes what it encoded and is as long as the bits need (section 5 of RFC 4648) |
| `Cursor.RoundTrip` | operator/internal/consoleapi/ingestrun_read.go:388-429 | a cursor decodes to its token exactly under the hash it was made for and with a payload of at most 12259 bytes |
| `Cursor.OnlySealedAccepted` | operator/internal/consoleapi/ingestrun_read.go:408-429 | nothing is accepted but what the key sealed for this query |
| `Cursor.DigestIdentifiesQuery` | operator/internal/consoleapi/ingestrun_read.go:383-386 | two queries share a hash exactly when namespace, instance, limit and phase agree |
| `Pagination.FilterRuns` | operator/internal/consoleapi/ingestrun_read.go:316-325 | the loop appends exactly the wanted runs of a backend page in order |
| `Pagination.FilterExactly` | operator/internal/consoleapi/ingestrun_read.go:316-325 | each run of the instance in the phase asked for is listed as often as the backend lists it, one without a phase under Pending, and no other |
| `Pagination.QueryChecked` | operator/internal/consoleapi/ingestrun_read.go:279-285 | a limit outside 1 to 100 or an unknown phase is refused, and no limit means 25 |
| `Pagination.ListRuns` | operator/internal/consoleapi/ingestrun_read.go:278-346 | the paging loop computes the specified page, error cases included |
| `Pagination.GatherExact` | operator/internal/consoleapi/ingestrun_read.go:303-338 | a page holds exactly the wanted runs between two positions, within the limit and the read budget |
| `Pagination.GatherAdvances` | operator/internal/consoleapi/ingestrun_read.go:326-338 | a page with a continuation ends further on, and an available backend always yields a page |
| `Pagination.CrawlIsFilter` | operator/internal/consoleapi/ingestrun_read.go:278-346 | following cursors to the end yields exactly the filtered list, in order, and if replies make progress no chain of pages, finished or not, is longer than the list and one |
| `Pagination.CrawlEnds` | operator/internal/consoleapi/ingestrun_read.go:278-346 | over an available, progressing backend and with cursors within the bound the crawl comes to its end |
| `Pagination.PageBounded` | operator/internal/consoleapi/ingestrun_read.go:303-307 | no page exceeds its limit or its backend reads |
| `Pagination.CursorBoundToQuery` | operator/internal/consoleapi/ingestrun_read.go:291-297 | a cursor leads to its token exactly under the same namespace, instance, limit and phase |
| `JobRanking.ControllerOwnerIdentity` | operator/internal/consoleapi/snapshot.go:435-459 | the owner is the one controlling reference, and none if there are several or it has no UID |
| `JobRanking.CollectCandidates` | operator/internal/consoleapi/snapshot.go:260-276 | exactly the labelled Jobs of the namespace controlled by a named IngestRun count |
| `JobRanking.OwnedJobCounts` | operator/internal/consoleapi/snapshot.go:260-276 | a Job of the scope with exactly one controlling owner, an ingest run, counts under that owner |
| `JobRanking.LivelierJobRanksFirst` | operator/internal/consoleapi/snapshot.go:277-294 | active Jobs rank before inactive ones, open before ended, and within a kind the later observed first |
| `JobRanking.RanksIsTotalOrder` | operator/internal/consoleapi/snapshot.go:277-294 | the comparison by priority, newest observation, Job name, owner name and UID is a strict total order on candidates |
| `JobRanking.RankingIgnoresListing` | operator/internal/consoleapi/snapshot.go:277-294 | the ranking does not depend on the order in which Jobs are listed |
| `JobRanking.SelectReferences` | operator/internal/consoleapi/snapshot.go:256-318 | the best-ranked sixteen distinct names are kept with all their UIDs, and truncation is reported exactly when there are more |
| `RunCache.SelectOwners` | operator/internal/consoleapi/snapshot.go:296-318 | the loop over ranked owners keeps the first sixteen distinct names and every UID referenced under them |
| `JobRanking.BestRankedKept` | operator/internal/consoleapi/snapshot.go:277-318 | every kept name has a candidate that ranks before all candidates of any name left out |
| `RunCache.FindOldest` | operator/internal/consoleapi/snapshot.go:388-399 | the evicted entry is least by validation time, then by identity |
| `RunCache.OldestUnique` | operator/internal/consoleapi/snapshot.go:388-407 | which entry that is does not depend on map order |
| `RunCache.StoreBounded` | operator/internal/consoleapi/snapshot.go:368-401 | storing never exceeds sixteen entries nor keeps two of one name |
| `RunSnapshot.SweepCache` | operator/internal/consoleapi/snapshot.go:347-366 | exactly the entries that are referenced alone under their name and recent survive, in whatever order they are visited |
| `RunSnapshot.ContestedReadLive` | operator/internal/consoleapi/snapshot.go:356-362 | a name with several referenced UIDs is never served from the cache |
| `RunSnapshot.PickExactly` | operator/internal/consoleapi/snapshot.go:320-366 | a run validated less than thirty seconds ago and alone under its name is served without a read; anything else is what the live read says, if it is of the scope, name and UID |
| `RunSnapshot.Snapshotter.ReadNames` | operator/internal/consoleapi/snapshot.go:320-344 | the names are resolved in order from cache or live reads, without evicting anything |
| `RunSnapshot.Snapshotter.LoadCachedIngestRuns` | operator/internal/consoleapi/snapshot.go:347-366 | loading keeps the cache valid and names exactly the surviving runs |
| `RunSnapshot.Snapshotter.StoreCachedIngestRun` | operator/internal/consoleapi/snapshot.go:368-401 | storing keeps the cache valid and evicts the oldest only when full |
| `RunSnapshot.Snapshotter.ResolveReferencedIngestRuns` | operator/internal/consoleapi/snapshot.go:256-345 | from the listed Jobs: every returned run was read live less than thirty seconds ago under a referenced UID, and afterwards the cache holds exactly the returned runs |
| `FlowProfileClaims.CandidatesOrdered` | operator/internal/controller/flowprofile_controller.go:360-380 | the candidates are exactly the eligible claimants, oldest first, then by name |
| `FlowProfileClaims.ElectionAgrees` | operator/internal/controller/flowprofile_controller.go:349-380 | exactly one live claimant wins, the oldest and among equals the first by name, and all agree on it in whatever order profiles are listed |
| `FlowProfileClaims.FinaliseByClaims` | operator/internal/controller/flowprofile_controller.go:594-620 | an older live claimant inherits, a younger one blocks, and with none the deletion Job decides |
| `FlowProfileClaims.DeletesOnlyUnclaimed` | operator/internal/controller/flowprofile_controller.go:621-703 | a deletion Job is launched exactly when the profile is registered, unclaimed by another live one, its schema ready and no Job there, and an unclaimed registered profile is released only after it succeeded |
| `FlowProfileClaims.UnclaimedFollowsJobs` | operator/internal/controller/flowprofile_controller.go:621-703 | unclaimed by others, the profile waits for its registration, its schema or its deletion Job, retries a drifted or failed one, is held by one in use, and is released exactly otherwise |
| `FlowProfileRuns.LaunchRivalsAreLate` | operator/internal/controller/flowprofile_controller.go:602-661 | in every run, at the launch another live claimant exists only if it was created after the claims were listed |
| `FlowProfileRuns.LateClaimMissed` | operator/internal/controller/flowprofile_controller.go:602-661 | and such a claim can be missed |
| `FlowProfileClaims.WaitsOnlyForLive` | operator/internal/controller/flowprofile_controller.go:612-620 | a deleting profile is blocked only by a live one, so finalisers never deadlock each other |
| `FieldOwnership.MergeIsUnion` | operator/internal/controller/managed_apply.go:184-194 | merging is the union of claimed paths, exactly when no sub-claim is overwritten by a value that is not an object |
| `FieldOwnership.MergeFieldsV1` | operator/internal/controller/managed_apply.go:184-194 | the loop computes the merge in any key order |
| `FieldOwnership.TakeSections` | operator/internal/controller/managed_apply.go:122-139 | the section loop takes and leaves exactly what the rules say |
| `FieldReclaim.ReclaimAuthoritativeFields` | operator/internal/controller/managed_apply.go:71-182 | under the operator's sections and allocated fields, the loop over entries computes the specified outcome, errors included |
| `FieldReclaim.NoForeignSection` | operator/internal/controller/managed_apply.go:93-101 | after an update no eligible foreign entry has anything left to take |
| `FieldReclaim.QuietSection` | operator/internal/controller/managed_apply.go:128-135 | such an entry claims an authoritative section only with allocated fields of a Service |
| `FieldReclaim.UnchangedWasQuiet` | operator/internal/controller/managed_apply.go:153-155 | nothing is written only when there was nothing to take |
| `FieldReclaim.SecondPassQuiet` | operator/internal/controller/managed_apply.go:102-182 | a second pass writes nothing |
| `FieldReclaim.ClaimsConserved` | operator/internal/controller/managed_apply.go:136-181 | nothing is claimed afterwards that was not before, and where no merge overwrites a sub-claim every claim but allocated fields is still held |
| `FieldReclaim.ForeignClaimReclaimed` | operator/internal/controller/managed_apply.go:93-181 | a claim below an authoritative section by another manager, or by the operator through an update, ends with the operator's applied entry, but for allocated Service fields |
| `FieldReclaim.OtherEntriesUntouched` | operator/internal/controller/managed_apply.go:93-127 | entries for subresources or other versions stay as they are |
| `FieldReclaim.ProperClaimsFit` | operator/internal/controller/managed_apply.go:184-194 | claims that are objects all the way down never overwrite each other |
| `FieldReclaim.ClaimCanBeLost` | operator/internal/controller/managed_apply.go:184-194 | that condition cannot be dropped: entries that lose a claim |
| `FieldReclaim.GrantedNeverAdded` | operator/internal/controller/managed_apply.go:76-91 | an allocated field is never added to the operator's claims |
| `MergePatch.MergeMatchesRfc` | operator/internal/controller/advanced_patches.go:104-118 | the merge equals MergePatch of section 2 of RFC 7396 up to null members, and equals it exactly when the patch leaves no null dangling |
| `MergePatch.MergeJsonMap` | operator/internal/controller/advanced_patches.go:104-118 | the in-place loop computes the merge in any key order |
| `AdvancedPatches.ValidatePatch` | operator/internal/controller/advanced_patches.go:86-102 | a patch is accepted exactly when it names no protected field |
| `AdvancedPatches.KeepsIdentityExactly` | operator/internal/controller/advanced_patches.go:86-102 | an accepted patch keeps every object's identity if and only if its metadata is absent or an object |
| `AdvancedPatches.ApplyAdvancedResourcePatches` | operator/internal/controller/advanced_patches.go:17-84 | the loop applies the list as specified, errors included |
| `AdvancedPatches.AddressedIsApplied` | operator/internal/controller/advanced_patches.go:17-57 | a patch naming the object is merged or refused, and one naming another object changes nothing |
| `AdvancedPatches.MatchingStable` | operator/internal/controller/advanced_patches.go:17-57 | with sound metadata the list merges exactly the patches addressed to the object as rendered, and keeps its identity |

## Left out

- Client, informer, RBAC, manager and webhook wiring, which is plumbing over libraries.
- Rendering of Jobs, Pods and SQL beyond the fields the drift check compares; the rest would add easy members only.
- S3, Authentik, DNS and HTTP calls, which are nondeterministic answers here.
- Authentication, role mapping, redaction and secret generation.
- Status text, reasons, events, metrics and logging; phases and booleans are kept.
- Admission gates of an ingest run (target readiness, images, token, retry parent, storage backend, profiles, inputs, endpoint), which are one abstract gate.
- Resolution of a resume source and the checks on its manifest; a bootstrap step names any artifact.
- Lost or stale reads from the informer cache.
- `IngestRun.RunStatus` keeps no output description and no conditions.
- AdvancedPatches.ApplyAdvancedResourcePatches: typed objects lose unknown fields when converted back, which is not modelled.
- Monitor.Monitor.Refresh: the 64-bit update number and subscriber number do not wrap here.
- FlowProfileClaims.DeletesOnlyUnclaimed: speaks of the claimants listed; FlowProfileRuns.LaunchRivalsAreLate speaks of the launch.
- Base64.RoundTrip: says nothing about texts no encoder produces, although the decoder models them.
- Sharing of sub-maps between merged Go maps; merges work on values here.
- OpenAPI scripts, the support bundle and frontend configuration.
