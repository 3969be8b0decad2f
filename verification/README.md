# Agent Merge Broker, verified

The broker takes commits from many workers, assembles them into batches, validates and publishes
them, and lands them through a forge. It must survive being killed at any moment. This project models
its state machines, its lock protocol and the algorithms they rest on, and proves what they promise.

Run `dafny verify dfyconfig.toml` here to check everything.

## How it is laid out

The Coordinate lifecycle is one state machine, module `Coordinate`. A step is one store transaction,
one lock taken or lost, or the passing of time; answers of Git and the forge are arbitrary inputs of
the step that reads them, and a crash is the step that drops a lock. The holder of a batch lock acts
on what it read under that lock (`views`), not on the stored record. `BatchRecords` says what every
record satisfies in every run, stale views included, and `CurrentViews` when a view is the record. On
top of that stand four results.

* `LeaseExclusion`: two unexpired leases never have scopes that share a path or a serialized pattern,
  in any state of any run, with no proviso. What "share a path" means rests on `Patterns`, where the
  cheap overlap test is proved sound against a matcher for globs.
* `Coherence`: tasks and batches tell the same story in every state of a run exactly when each of its
  writes to a batch's tasks found them still that batch's; and at most one batch is outstanding
  throughout exactly when each preparation and publication found no other, which holds without force
  and without late publication.
* `ApprovalSafety`: in every run a batch with a candidate is merged only on a confirmed, unrevoked
  approval of exactly that sha, base and policy revision with every required verification passed for
  it, and if the forge decided, then only on exactly that candidate's merged pull request. And
  `Provenance`: every such result was reported for it as it stands, by a verifier or by the forge, and
  the approval was given by the actor it names when nothing stood against it.
* `RevisionAtomicity`: in every run a recorded revision, which must move a branch and a record, ends as
  if it had never been recorded or exactly as if it had not been interrupted, unless its batch is
  pruned.

`TaskOutcomes`, `BatchOutcomes` and `Reconciliation` say on the records' own fields when each operation
is carried out, what it leaves of every task and batch, and what is concluded from each answer of the
forge. `BrokerStore` has the same transactions as methods of a class with the broker's loops, each
proved to do what the state machine's step does. `Locks` proves the mutual exclusion that lets a
transaction be one step, and `ExecutionGuards` that no earlier validator is alive when an operation
begins.

`Scheduler` and `Pruning` are the planner and the housekeeping that must be invisible to it
(`SchedulePlans`). `Gate` is the submission lifecycle, one await at a time, `GateSafety` what it keeps
and `GateOutcomes` why a submission ended as it did. The audit stream is text in `AuditLines`, bytes
and files in `AuditLog` and read back in `AuditReads`, over the UTF-8 of `Utf8` and the JSON reader of
`Json`. `MergeProof`, `PortablePaths`, `Capture`, `Quoting`, `Json`, `CanonicalForm` and `Attestation`
are algorithms, each against an independent account of what it is for.

## What the code does not keep

Seven promises turned out false of the code in some cases. For each the exact condition under which
the code does keep it is proved. The first five are shown by complete runs of the state machine, the
sixth by a run of the audit log, and the last is about an argument that no caller passes.

* *Coherence of tasks and batches.* The reconciler's transactions that fail a batch set every listed
  task to failed without the check for reassigned tasks that closing and completing make
  (`src/broker.ts:3209-3230`, and likewise at 3139, 3309, 3524, 3684 and 3757). Syncing a batch again
  after it was closed can therefore fail a task under the running batch that replaced it. The run is
  `Counterexamples.ReconcilingAClosedBatchBreaksItsReplacement`; such a transaction is safe exactly
  when no other active batch lists one of the tasks (`Coherence.FailingIsSafeExactlyWhenUnlisted`).
  Publication is safe exactly when every listed task still names the batch
  (`Coherence.PublishingIsSafeExactlyWhenNamed`). These conditions make up `Coherence.Orderly`, and a
  run is coherent throughout exactly when each of its steps is orderly
  (`Coherence.RunIsCoherentExactly`). A batch that is still prepared or published always meets them.
* *A batch lock holder's view is current.* The catch block of an integration also runs after the batch
  was prepared, when writing its manifest or deleting a token fails, and then rewrites the record
  without the batch lock (`src/broker.ts:1614-1668`). A publisher at work on the batch can then publish
  the failed record: `Counterexamples.FailingAPreparedBatchRacesItsPublisher`. Views stay current
  throughout a run exactly when no such block races a holder (`CurrentViews.RunKeepsViewsExactly`).
* *At most one batch is outstanding without force.* After that race the failed task can go into a
  second batch before the first is published: `LatePublication.TwoBatchesAreOutstanding`. The exact
  condition is that each preparation and publication finds no other batch outstanding
  (`Coherence.RunHasAtMostOneExactly`); `Coherence.RunKeepsOneOutstanding` says what is enough for it.
* *A merged batch keeps the approval it was merged on.* Reopening a task looks at the task's status and
  not at its batch's (`src/broker.ts:2754-2798`). A late publication can set a merged task back to
  published, and reopening it then drops the approval: `LatePublication.MergedBatchIsReopened`. The
  approval stays exactly as long as no task of that batch is reopened
  (`ApprovalSafety.RunMergesOnlyApproved`), and in a coherent run none ever is
  (`ApprovalSafety.OrderlyRunReopensNoMerged`).
* *A recorded revision is finished or forgotten.* Housekeeping looks at statuses and not at pending
  revisions (`src/broker.ts:268-306`), so one recorded on a merged batch can be deleted with it:
  `LatePublication.RecordedRevisionIsPruned`. It is lost exactly when a pruning selects the batch
  (`RevisionAtomicity.PendingStep`), which none does where revisions begin on outstanding batches, as
  they do in every coherent run (`RevisionAtomicity.OutstandingRevisionsAreNotPruned`).
* *A full audit read.* Nothing is ever lost from the files (`AuditLog.AcknowledgedExactlyOnce`), but a
  read looks only at the last mebibyte of each file while segments rotate at sixteen. It is complete
  exactly when no file holds an event before its tail or in the tail's first line
  (`AuditReads.BoundedReadIsCompleteExactly`). A file of whole lines larger than the tail always holds
  one (`AuditReads.LargeFileIsNotCovered`), and one append can make such a file
  (`AuditReads.ReadMissesAcknowledged`).
* *Bounded capture.* A limit of zero keeps everything, because a slice from minus zero is the whole
  buffer. Capture is bounded exactly when the limit is at least one
  (`Capture.BoundedExactlyWhenPositive`), which every limit passed in the repository is.

Lease exclusion, approval at the moment of merging and revision numbering need no condition.

## Model

| member | source | states |
|---|---|---|
| `BrokerStore.Broker.LeaseConflict` | `src/broker.ts:167-194` | the loop over leases answers yes exactly when some other unexpired lease overlaps the scope or touches a serialized pattern it touches too |
| `BrokerStore.Broker.ClaimTask` | `src/broker.ts:761-833` | a claim refuses or stores exactly what the state machine's step stores |
| `LeaseExclusion.DedupClashes` | `src/broker.ts:868-869` | dropping repeated patterns from a scope changes no clash |
| `LeaseExclusion.StepKeepsLeases` | `src/broker.ts:761-960` | no step whatever lets two unexpired leases have clashing scopes |
| `LeaseExclusion.RunKeepsLeasesDisjoint` | `src/broker.ts:167-194` | in every state of every run, crashes and passing time included, unexpired leases have scopes that do not clash |
| `LeaseExclusion.LiveLeasesShareNoPath` | `src/broker.ts:167-194` | no tracked path is in a declared pattern of two unexpired leases |
| `LeaseExclusion.LiveLeasesShareNoSerializedPattern` | `src/broker.ts:182-192` | no serialized pattern is touched by two unexpired leases |
| `LeaseExclusion.LeaseIsRespected` | `src/broker.ts:835-960` | no worker's operation changes a task under an unexpired lease without the lease's token, unless an operator forces it |
| `LeaseExclusion.ExpiredLeaseIsVoid` | `src/broker.ts:155-165` | an expired or missing lease keeps nothing alive, extends nothing and submits nothing |
| `Patterns.FirstUnescapedMagicIndex` | `src/patterns.ts:25-36` | the scan returns the first glob character that no backslash escapes, or -1 |
| `Patterns.OverlapSymmetric` | `src/patterns.ts:45-56` | the overlap test does not depend on the order of its arguments |
| `Patterns.OverlapSound` | `src/patterns.ts:38-56` | whenever a tracked path matches both patterns the test answers yes |
| `Patterns.SetOverlapSound` | `src/patterns.ts:58-60` | the same for two lists of patterns |
| `Patterns.LiteralPrefixIs` | `src/patterns.ts:38-43` | the literal prefix is the fixed text up to the last slash in front of the first glob character |
| `Patterns.GlobsOverlapExactly` | `src/patterns.ts:45-56` | two globs are taken to overlap exactly when the directory of one lies within that of the other |
| `Patterns.PathOverlapsExactly` | `src/patterns.ts:45-56` | a path overlaps a glob exactly when the glob matches it, and another path only if it is the same |
| `CandidateLifecycle.LatestIsRecorded` | `src/candidate-lifecycle.ts:53` | the entry that decides for a name is one that was recorded under that name |
| `CandidateLifecycle.SoundApprovalAuthorizes` | `src/candidate-lifecycle.ts:43-61` | a confirmed, unrevoked approval on a sound candidate means every required result is recorded as passed for that sha, base and policy revision |
| `CandidateLifecycle.UpsertSound` | `src/candidate-lifecycle.ts:216-221` | recording a result keeps a candidate sound and makes that result the deciding one |
| `CandidateLifecycle.ApproveSound` | `src/broker.ts:2608-2661` | approving keeps a candidate sound and leaves an approval standing |
| `CandidateLifecycle.ObservedSound` | `src/broker.ts:3560-3677` | one forge observation, with the approval confirmed or dropped after it, keeps a candidate sound |
| `BatchRecords.ViewIsStored` | `src/store.ts:351-360` | what a batch lock holder may act on is the stored record, or else what is stored is exactly what a catch block leaves: nothing approved, published or under revision |
| `BatchRecords.PublishWrites` | `src/broker.ts:2133-2165` | publication replaces a good record by a good one with the same tasks |
| `BatchRecords.PublishQueueOutcomeWrites` | `src/broker.ts:2216-2232` | recording a queued merge keeps the record good, and the candidate is left alone unless it is authorized, and then only moved to merging |
| `BatchRecords.VerificationWrites` | `src/broker.ts:2251-2328` | recording a verification keeps the record good; what it records is the row on VerificationIsRecorded |
| `BatchRecords.ApprovalWrites` | `src/broker.ts:2509-2661` | an approval is recorded only where the record stays good |
| `BatchRecords.RequestChangesWrites` | `src/broker.ts:2343-2388` | recording a change request keeps the record good |
| `BatchRecords.DeadWrite` | `src/broker.ts:2693-2724` | the one write of a stale view that leaves an unsound candidate leaves it on a record that nothing can use |
| `BatchRecords.CompleteChangesWrites` | `src/broker.ts:2390-2487` | finishing a change request keeps the record good and leaves no approval, in each of its three outcomes |
| `BatchRecords.ReopenWrites` | `src/broker.ts:2744-2822` | reopening a task keeps the record good and leaves its batch no approval |
| `BatchRecords.IntentRecorded` | `src/broker.ts:3017-3060` | a recorded revision names the current candidate and carries a successor with the next number, no evidence and no approval |
| `BatchRecords.CommitSyncWrites` | `src/broker.ts:3105-3817` | whichever transaction a reconciliation commits keeps the record good |
| `BatchRecords.CloseWrites` | `src/broker.ts:3895-3990` | closing keeps the record good and leaves no approval behind |
| `BatchRecords.MergeWrites` | `src/broker.ts:4245-4322` | completion keeps the record good |
| `BatchRecords.StartRefreshWrites` | `src/broker.ts:4071-4097` | recording a refresh keeps the record good |
| `BatchRecords.FinishRefreshWrites` | `src/broker.ts:4179-4216` | superseding a batch keeps the record good |
| `CurrentViews.CatchKeepsViewsExactly` | `src/broker.ts:1614-1680` | the catch block of an integration leaves every usable view current exactly when nobody is working on that batch, or on a record equal to the one it writes |
| `CurrentViews.StepKeepsViewsExactly` | `src/broker.ts:729-4408` | of all steps only that block can part a view in use from the stored record, and does exactly when its condition fails |
| `CurrentViews.RunKeepsViewsExactly` | `src/store.ts:351-360` | in a run every usable view is the stored record in every state exactly when no catch block raced the holder of a batch lock |
| `BatchRecords.StepKeepsRecords` | `src/broker.ts:1311-4322` | every step keeps every record well formed, races included |
| `BatchRecords.RunKeepsRecords` | `src/broker.ts:1311-4322` | the same for every run, with no proviso |
| `Provenance.VerificationIsRecorded` | `src/broker.ts:2290-2318` | after a recorded verification the name has passed exactly if it was reported passed, its deciding entry is what was reported for that sha, base and policy revision, and every other name stands as it did |
| `Provenance.ObservedExactly` | `src/broker.ts:3600-3660` | after an observation a check has passed exactly if it ran and every run succeeded; one still running has not |
| `Provenance.EvidenceHasItsStep` | `src/broker.ts:2251-2328` | in every run each stored result was reported at some step, as it stands, by a verifier for exactly that candidate or by the forge's runs on it, and has been there since |
| `Provenance.ApprovalHasItsStep` | `src/broker.ts:2509-2661` | in every run each approval was given at some step by the actor it names, authorized, with every wanted result a pass, the pull request open at exactly that commit on that base, all checks green, nobody objecting and no task being reworked |
| `Provenance.ConfirmationHasItsStep` | `src/broker.ts:3560-3677` | and a confirmed one was confirmed at a step that saw exactly that commit and base with all checks green and nobody objecting |
| `Provenance.MergeRestsOnReports` | `src/broker.ts:4245-4322` | in every run whatever is merged with a candidate had, before the merging step, every result it wants reported passed on it, and its approval given and confirmed on it, none taken back in between |
| `TaskOutcomes.FailedIntegration` | `src/broker.ts:1638-1668` | after a failed integration the culprit has failed, every other task is queued with one more attempt if one is left and has failed otherwise; without a culprit all have failed, and after a rehearsal all are queued as they were |
| `TaskOutcomes.StartedAsPlanned` | `src/broker.ts:1415-1448` | a batch starts only from tasks that are exactly as the planner read them, each once |
| `TaskOutcomes.StartedBatch` | `src/broker.ts:1433-1448` | starting moves exactly the planned tasks, in plan order, into the new running batch |
| `TaskOutcomes.BranchedBatch` | `src/candidate-lifecycle.ts:63-77` | under an approval policy what was assembled becomes a first candidate of exactly that commit and base that wants exactly what the policy names and has nothing to its credit |
| `TaskOutcomes.PreparedBatch` | `src/broker.ts:1583-1610` | preparing batches exactly the listed tasks and ends their leases |
| `TaskOutcomes.RecoveredBatch` | `src/broker.ts:1903-1928` | recovery queues exactly the tasks that are still integrating in the abandoned batch |
| `TaskOutcomes.PublishedBatch` | `src/broker.ts:2133-2165` | publication records the pull request and publishes exactly the listed tasks |
| `TaskOutcomes.ClosedBatch` | `src/broker.ts:3937-3990` | closing fails exactly the listed tasks that are not merged and takes them out of the batch |
| `TaskOutcomes.SupersededBatch` | `src/broker.ts:4179-4216` | superseding queues them instead, at the cost of no attempt |
| `TaskOutcomes.MergedBatch` | `src/broker.ts:4290-4322` | completion merges exactly the listed tasks, at the recorded instant, and none that names another batch |
| `TaskOutcomes.ViolatedBatch` | `src/broker.ts:3139-3168` | a broken invariant at the forge fails the batch, its candidate and every listed task, whatever they were |
| `TaskOutcomes.ClaimedTask` | `src/broker.ts:761-833` | a claim gives its caller a task nobody holds, with the scope asked for or the one it had |
| `TaskOutcomes.SubmittedTask` | `src/broker.ts:1034-1093` | a submission records exactly the commits and paths submitted and queues the task, its dependencies known where they must be |
| `TaskOutcomes.RetriedTask` | `src/broker.ts:934-964` | a retry queues a failed task without a batch and counts its attempts afresh |
| `TaskOutcomes.RetriesAreBounded` | `src/broker.ts:1656-1664` | in every run a task's count of automatic retries stays below the configured maximum |
| `BatchOutcomes.VerifiedExactly` | `src/broker.ts:2251-2300` | a result is taken exactly for a name the policy wants, on a published candidate named exactly and open at the forge that is not approved, merging or ended |
| `BatchOutcomes.ApprovedExactly` | `src/broker.ts:2509-2661` | an approval is taken exactly from an authorized actor, for a ready candidate named exactly, its pull request open at it on its base and branch, all checks green, nobody objecting, all its tasks published and unleased |
| `BatchOutcomes.QueuedExactly` | `src/broker.ts:2180-2200` | a merge is queued exactly for a published batch, not stale, under change or queued, whose approval stands under the policy in force or that needs none |
| `BatchOutcomes.ChangesAreRequested` | `src/broker.ts:2343-2388` | changes are requested exactly of a published candidate still offered by its open pull request with no other transition begun, and only the request is recorded |
| `BatchOutcomes.ChangesAreCompleted` | `src/broker.ts:2390-2487` | a recorded request sends the candidate back, closes the batch or fails it, as the pull request is open at it, closed or moved |
| `BatchOutcomes.TaskIsReopened` | `src/broker.ts:2744-2822` | a task is reopened only while batched or published, of a candidate neither approved, merging nor queued; the candidate is sent back without its approval |
| `BatchOutcomes.RevisionBegins` | `src/broker.ts:2848-2890` | a revision begins exactly for the holder of the task's lease, on a candidate that was sent back and is still what its pull request offers |
| `BatchOutcomes.RevisionIsRecorded` | `src/broker.ts:2902-2912` | the recorded successor is the batch as read, cut from the new base at the new commit under the current policy |
| `BatchOutcomes.OperatorClosesExactly` | `src/broker.ts:3852-3990` | an operator closes a batch alone exactly when no transition has begun and no pull request or queue may be live |
| `BatchOutcomes.MergedExactly` | `src/broker.ts:4245-4290` | completion is exactly for a batch without a transition, none of whose tasks names another, that has a candidate exactly if the policy wants one, with its confirmed approval under that policy |
| `BatchOutcomes.RefreshStarts` | `src/broker.ts:4020-4097` | a refresh begins exactly when the base moved, one was asked for or begun, or the target is unbound, and the intent to close keeps its nonce when recorded again |
| `BatchOutcomes.RefreshGoesOn` | `src/broker.ts:4100-4216` | the queue is put out and the batch superseded only with that intent on record |
| `Reconciliation.MergedIsDecided` | `src/broker.ts:3105-3817` | a merged pull request completes its batch exactly if the merge was allowed, and fails it otherwise |
| `Reconciliation.OnlyMergedCompletes` | `src/broker.ts:3105-3817` | nothing else completes one |
| `Reconciliation.ClosedIsDecided` | `src/broker.ts:3202-3275` | a closed one fails its batch if it had moved, is passed over if the broker closed it to refresh, and closes the batch otherwise |
| `Reconciliation.OpenIsDecided` | `src/broker.ts:3105-3560` | an open one never completes or closes a batch, and fails none under an approval policy |
| `Reconciliation.RevokedExactly` | `src/broker.ts:3412-3500` | a standing approval is revoked exactly when the policy, head, branch, base, a check, a reviewer or a conflict objects |
| `Reconciliation.ReconciledVerdict` | `src/broker.ts:3560-3640` | what moved or is objected to blocks or sends back the candidate without its approval, and a moved base or policy asks for a refresh |
| `Reconciliation.StateSaysResults` | `src/candidate-lifecycle.ts:43-61` | a candidate's state says exactly whether a wanted result failed, all passed, or some are missing |
| `Reconciliation.ApprovalSurvivesExactly` | `src/broker.ts:3560-3677` | an approval outlives a reconciliation exactly if it was not being revoked, nothing moved or objected, and every wanted result is then a pass |
| `Reconciliation.LiveQueueIsStopped` | `src/broker.ts:3170-3300` | a queue is put out where automatic merging is off, and suspected where no approval stands behind it |
| `Reconciliation.AdoptedExactly` | `src/broker.ts:3305-3410` | a batch without a candidate gets one exactly if the pull request is still the batch's on its base and no queue can merge it |
| `Coherence.ActiveBatchesDisjoint` | `src/broker.ts:1433-1448` | two active batches list no common task |
| `Coherence.FailingIsSafeExactlyWhenUnlisted` | `src/broker.ts:3139-3168` | a transaction that fails a batch's tasks or queues them again keeps tasks and batches coherent exactly when no other active batch lists one of them |
| `Coherence.PublishingIsSafeExactlyWhenNamed` | `src/broker.ts:2133-2165` | publication keeps them coherent exactly when every listed task still names the batch |
| `Coherence.OutstandingIsOrderly` | `src/broker.ts:2133-2165` | a batch that is still prepared or published meets both conditions |
| `Coherence.StartCoherent` | `src/broker.ts:1433-1448` | starting a batch keeps coherence, and none of its tasks names another batch |
| `Coherence.PrepareCoherent` | `src/broker.ts:1583-1592` | preparing moves the batch and all its tasks together, cancelled ones included |
| `Coherence.FailIntegrationCoherent` | `src/broker.ts:1644-1668` | the catch block keeps coherence from every phase it can be reached in |
| `Coherence.RecoverEachCoherent` | `src/broker.ts:1903-1928` | recovery of abandoned integrations keeps coherence and gives no task a batch it did not name |
| `Coherence.PruneCoherent` | `src/broker.ts:4395-4408` | housekeeping keeps coherence |
| `Coherence.StepKeepsCoherentExactly` | `src/broker.ts:729-4408` | of all steps only those transactions can break coherence, and each does exactly when its condition fails |
| `Coherence.RunIsCoherentExactly` | `src/broker.ts:729-4408` | a run, crashes and races included, is coherent in every state exactly when each of its steps met its condition |
| `Coherence.TaskStatusMeansBatchStatus` | `src/broker.ts:1433-1592` | in every state an integrating, batched or published task names a batch that lists it and is running, prepared or published respectively |
| `Coherence.BatchStatusMeansTaskStatus` | `src/broker.ts:1583-1592` | in every state all tasks of a prepared or published batch have the matching status, and active batches have disjoint task lists |
| `Coherence.StepKeepsAtMostOneExactly` | `src/broker.ts:1343-1355` | of all steps, forced integrations included, a second batch becomes outstanding exactly at a preparation or publication that finds another one outstanding |
| `Coherence.RunHasAtMostOneExactly` | `src/broker.ts:1343-1355` | in a run at most one batch is prepared or published in every state exactly when each preparation and publication found no other |
| `Coherence.PrepareFindsNone` | `src/broker.ts:1343-1355` | where the check before an unforced integration still holds, preparing finds no outstanding batch |
| `Coherence.RunKeepsOneOutstanding` | `src/broker.ts:1343-1355` | a sufficient condition: nothing is forced, and no batch that is no longer outstanding is published while another is outstanding or about to be prepared |
| `ApprovalSafety.MergeNeedsApproval` | `src/broker.ts:4245-4322` | a step after which a batch with a candidate is newly merged found that candidate authorized and its policy current; without a candidate the policy required none; and a reconciliation found the forge reporting exactly this head merged into exactly this branch, on the exact base or proven |
| `ApprovalSafety.MergeHasItsStep` | `src/broker.ts:3560-3817` | in every run, with no proviso, a merged batch was merged by such a step, whatever the forge answered |
| `ApprovalSafety.SyncedMergeLanded` | `src/broker.ts:3503-3530` | what a reconciliation merged is the candidate on its exact base or one of the four ways a forge lands it |
| `ApprovalSafety.MergedApprovalKeptExactly` | `src/broker.ts:2754-2798` | a step changes the candidate of a merged batch, and drops the approval it was merged on, exactly when it reopens one of that batch's tasks |
| `ApprovalSafety.RunMergesOnlyApproved` | `src/broker.ts:2608-2661` | in every run a merged batch keeps the very candidate, approval and evidence included, that the merging step found, exactly as long as no later step reopens a task of that batch while it is merged |
| `ApprovalSafety.OrderlyRunReopensNoMerged` | `src/broker.ts:2754-2798` | in a coherent run it never happens |
| `RevisionAtomicity.PendingStep` | `src/broker.ts:1740-1794` | while a revision is pending, a step leaves the whole record alone, resolves it as the branch head says, or is a pruning that selects it; and the record is lost exactly in the last case |
| `RevisionAtomicity.StepKeepsOutstandingExactly` | `src/broker.ts:2848-2871` | a batch under revision stays prepared or published through every step, exactly when no revision begins on another kind of batch |
| `RevisionAtomicity.OrderlyRunRevisesOutstanding` | `src/broker.ts:2848-2871` | in a coherent run none does |
| `RevisionAtomicity.RevisionIsAtomic` | `src/broker.ts:3017-3073` | in every run, from the recording of a revision the record is unchanged until one step restores the very batch it was or installs exactly what finishing installs, or a pruning selects the batch |
| `RevisionAtomicity.OutstandingRevisionsAreNotPruned` | `src/broker.ts:268-306` | where revisions begin on prepared or published batches only, no pruning selects a batch with a revision pending |
| `RevisionAtomicity.UninterruptedRevision` | `src/broker.ts:3071-3073` | finishing at once succeeds and installs that same record |
| `RevisionAtomicity.InstalledRevisionIsFresh` | `src/candidate-lifecycle.ts:96-161` | the installed revision has the next number, no evidence, no approval, and its predecessor joins the history as superseded |
| `RevisionAtomicity.RevisionsAreNumbered` | `src/candidate-lifecycle.ts:119-127` | in every state of every run the history holds revisions 1 to n-1, all superseded, and the candidate is revision n |
| `Counterexamples.ReconcilingAClosedBatchBreaksItsReplacement` | `src/broker.ts:3200-3245` | a complete run in which a second sync of a closed batch fails the task of the running batch that replaced it |
| `Counterexamples.FailingAPreparedBatchRacesItsPublisher` | `src/broker.ts:1614-1680` | a complete run in which a catch block fails a prepared batch and its publisher publishes the failed record |
| `LatePublication.TwoBatchesAreOutstanding` | `src/broker.ts:2133-2165` | a complete run without force that ends with two batches outstanding, one of them published late |
| `LatePublication.MergedBatchIsReopened` | `src/broker.ts:2754-2798` | a complete run in which a task of a merged batch is reopened and the approval it was merged on dropped |
| `LatePublication.RecordedRevisionIsPruned` | `src/broker.ts:4395-4408` | its continuation, in which a revision of that batch is recorded and the record then pruned |
| `BrokerStore.Broker.StartBatch` | `src/broker.ts:1433-1448` | the loop over the plan refuses or stores exactly what the step stores |
| `BrokerStore.Broker.PrepareBatch` | `src/broker.ts:1583-1610` | the loop over the tasks stores exactly what the step stores |
| `BrokerStore.Broker.FailIntegration` | `src/broker.ts:1638-1680` | the loop that fails or requeues each task stores exactly what the step stores, and each task fares as the row on FailedIntegration says |
| `BrokerStore.Broker.RecoverRunning` | `src/broker.ts:1903-1928` | the nested loops store exactly what the step stores |
| `BrokerStore.Broker.PublishBatch` | `src/broker.ts:2133-2165` | publication of a batch and each of its tasks stores exactly what the step stores |
| `BrokerStore.Broker.RecordVerification` | `src/broker.ts:2251-2328` | the checks and the replaced evidence store exactly what the step stores, after which the name has passed exactly if that was reported |
| `BrokerStore.Broker.CloseLocked` | `src/broker.ts:3905-3990` | all checks precede all writes, and the writes are the step's |
| `BrokerStore.Broker.FinishRefresh` | `src/broker.ts:4179-4216` | superseding a batch and queueing its tasks again is the step's write |
| `BrokerStore.Broker.MarkMergedLocked` | `src/broker.ts:4245-4322` | completion refuses or stores exactly what the step stores |
| `BrokerStore.Broker.FinalizeRevision` | `src/candidate-lifecycle.ts:96-161` | installing a revision refuses or stores exactly what the step stores |
| `Pruning.SelectPrunable` | `src/broker.ts:268-306` | the loops choose exactly the completed tasks and batches that nothing staying needs |
| `Pruning.TaskGoesExactly` | `src/broker.ts:268-306` | a task goes exactly if it is merged or cancelled, for long enough, needed by nothing still going on, and names no batch that stays |
| `Pruning.BatchGoesExactly` | `src/broker.ts:288-297` | a batch goes exactly if it is merged, closed or failed, for long enough, and every task it lists is long over and unneeded, or gone |
| `Pruning.RetainedTaskKeepsItsBatch` | `src/broker.ts:288-297` | a task that stays, and is listed by the batch it names, keeps that batch |
| `Pruning.RetainedTaskKeepsItsDependencies` | `src/broker.ts:278-286` | no staying task loses a dependency it could look up |
| `Scheduler.SortTasks` | `src/scheduler.ts:25-41` | the candidates come out in the comparison's order, which the row on CandidatesInOrder says on the records' fields |
| `SchedulePlans.CandidatesInOrder` | `src/scheduler.ts:25-41` | priority falls along the candidates; at equal priority the earlier submission comes first and a missing one last; then the lower identifier |
| `SchedulePlans.UrgentFirst` | `src/scheduler.ts:42-87` | a candidate that nothing stands in the way of comes in the plan before everything after it in that order, or its commits did not fit with more urgent ones |
| `SchedulePlans.SelectedInPlainTerms` | `src/scheduler.ts:12-23` | what is selected was submitted, and asked for if anything was, and each of its dependencies is merged or selected earlier |
| `SchedulePlans.ReasonsAreTrue` | `src/scheduler.ts:52-110` | every reason given for leaving a task out is the case, down to the list of missing dependencies |
| `Scheduler.Choose` | `src/scheduler.ts:42-87` | the nested loops with their flag and early exit compute the passes |
| `Scheduler.Schedule` | `src/scheduler.ts:33-111` | the whole computation, loop by loop, is the plan the rows on SchedulePlans describe, under the lower of the two task limits |
| `SchedulePlans.PlanIgnoresStorageOrder` | `src/scheduler.ts:25-41` | the plan is the same for every order in which tasks are stored |
| `SchedulePlans.PlanIsValid` | `src/scheduler.ts:42-87` | selected tasks are candidates, within both limits, without conflicts, each after its unmerged dependencies |
| `SchedulePlans.PlanFitsBothLimits` | `src/scheduler.ts:47` | a plan made for one call is within that call's task limit and the configured ones |
| `SchedulePlans.PlanIsMaximal` | `src/scheduler.ts:42-87` | unless the task limit was reached no candidate left out is ready, fits and collides with nothing |
| `SchedulePlans.EveryTaskHasOnePlace` | `src/scheduler.ts:89-110` | every candidate and every requested identifier is in the plan exactly once, selected or rejected, and nothing else is |
| `SchedulePlans.CyclesAreNeverSelected` | `src/scheduler.ts:12-23` | nothing on a dependency cycle of unmerged tasks is selected |
| `SchedulePlans.CollisionMeansSharing` | `src/scheduler.ts:68-73` | for paths that name something, a collision is exactly a shared path or a serialized pattern both touch |
| `SchedulePlans.PruningIsInvisible` | `src/broker.ts:4395-4408` | pruning changes neither the selected tasks nor the total, nor, with nothing requested, the rejections |
| `Locks.StepIsSafe` | `src/store.ts:850-1014` | every step of every process keeps the lock protocol's invariant |
| `Locks.LiveHolderOwnsTheLock` | `src/store.ts:351-360` | in every interleaving a live process inside a locked operation has its own nonce in the lock, and no other is inside |
| `Locks.OnlyTheDeadAreReclaimed` | `src/store.ts:999-1014` | a reclaim moves aside only a lock whose owner is gone, however late it is |
| `Locks.CrashedLockIsRecoverable` | `src/store.ts:871-895` | a crashed holder's lock can be taken by any waiting process |
| `Locks.LiveHolderReleases` | `src/store.ts:940-985` | a live holder that leaves frees the lock and changes nothing else |
| `Locks.LockIsFreedOnlyBy` | `src/store.ts:940-1014` | in every interleaving a lock becomes free only by its live holder leaving or by its dead owner being moved aside, and never passes on without having been free |
| `Locks.WithoutTombstonesTwoEnter` | `src/store.ts:995-1014` | a run in which, tombstones not being kept, two live processes are inside together |
| `Locks.KeptTombstoneStopsTheLateReclaimer` | `src/store.ts:1003-1010` | with tombstones kept, a reclaimer whose proven owner is no longer in the lock goes back to trying and changes nothing else, whoever is in the lock |
| `ExecutionGuards.OperationBeginsAlone` | `src/store.ts:335-340` | when an operation under the integration lock begins no handed-off command is alive and no guard is left |
| `ExecutionGuards.OperationRunsAlone` | `src/process.ts:325-353` | while it runs, whatever is alive is its own and guarded |
| `ExecutionGuards.GuardOutlivesItsCommand` | `src/execution-guard.ts:96-139` | a guard is removed only when nothing of its command is left |
| `ExecutionGuards.FinishedGuardsLetIn` | `src/execution-guard.ts:96-160` | once every guarded command is over and known to be, one pass lets the holder in and leaves no guard |
| `ExecutionGuards.GuardDirectory.Wait` | `src/execution-guard.ts:141-160` | polling removes exactly what was found finished and reports clear exactly when nothing is left |
| `GateSafety.StepKeeps` | `src/submission.ts:284-575` | every await of validation, abandonment and archival, and every crash, keeps the submission's invariant |
| `GateOutcomes.RejectedIsBlamed` | `src/submission.ts:449-464` | in every run a submission becomes rejected only because, in that very attempt, a validator failed or the worktree was found changed, after which nothing more was tried |
| `GateOutcomes.FailedIsBroken` | `src/submission.ts:449-513` | and failed only because something else was thrown or refused, the cache could not be removed, or all validators passed and the loss of the ref is on record |
| `GateOutcomes.CalmAttemptEnds` | `src/submission.ts:284-575` | an attempt that nothing disturbs ends validated if all validators pass, rejected if one fails and failed if one cannot be run, with exactly the results there are |
| `GateSafety.ValidatedIsEarned` | `src/submission.ts:496-564` | a submission becomes validated only with its ref at the recorded commit at that step, no check since retention having found it missing, and every validator passed on an unchanged worktree |
| `GateSafety.TerminalStatusIsFinal` | `src/submission.ts:284-303` | a submission is never lost and a terminal status never changes |
| `GateSafety.RefRestoredOnlyAfterJournal` | `src/git.ts:1418-1438` | whatever puts the ref back at the recorded commit found it missing, and either pins it for the first time or finds the loss already on record |
| `GateSafety.ArchivalReplays` | `src/submission-retention.ts:142-176` | once archival is requested every crash and replay leads to one archived record, with the record's status and results, archived and released as of the request |
| `GateSafety.ReleaseNeedsIntent` | `src/submission-retention.ts:152-153` | the broker deletes the ref only while carrying out a recorded intent to release it |
| `GateSafety.ArchivedWithoutRelease` | `src/submission-retention.ts:152-157` | a submission archived without release was never deprived of its ref by the broker |
| `GateSafety.ArchivalCompletes` | `src/submission-retention.ts:142-176` | an archival that gets to run reaches the archive with its manifest |
| `GateSafety.ManifestFollowsState` | `src/submission.ts:563-574` | a manifest never claims a status the state does not have |
| `GateSafety.SubmissionStore.Submissions` | `src/broker.ts:1149-1157` | every submission is listed once, as its active record if there is one |
| `MergeProof.TreeSequenceIsRebase` | `src/broker.ts:700-726` | the tree-sequence branch accepts only two single-parent chains directly on the base with the same trees in order |
| `MergeProof.ProvenExactlyWhenLanded` | `src/broker.ts:681-726` | the proof accepts exactly the commit itself, one commit on the base, a merge into the base, or a rebase onto it |
| `MergeProof.RequireLinearHistory` | `src/git.ts:1445-1487` | the cursor loop computes the specified walk |
| `MergeProof.LinearHistoryIsTheChain` | `src/git.ts:1445-1487` | a history is accepted exactly when a merge-free chain within the limit leads from the base to the head, and it is that chain |
| `PortablePaths.PortableTrie.Insert` | `src/git.ts:1212-1261` | an entry is accepted exactly when it is compatible with every earlier one, and the trie then stands for all of them |
| `PortablePaths.CheckListing` | `src/git.ts:1149-1271` | a listing is accepted exactly when no two of its entries collide |
| `PortablePaths.LeavesCollideSymmetrically` | `src/git.ts:1216-1256` | between leaves a collision is a spelling difference on an equal folded prefix, or one folded path leading to or being the other |
| `PortablePaths.PortableTrie.ParentPrefixes` | `src/git.ts:1273-1303` | the walk lists every directory with something in it, once, parents first |
| `PortablePaths.ParentPrefixesAre` | `src/git.ts:1273-1303` | what is listed is exactly the set of proper prefixes as they are spelled, without repeats |
| `AuditLines.DecodeEncoded` | `src/store.ts:656-666` | a reader of JSON, with the envelope check, finds in an event's line that event |
| `AuditLines.EventsAreEnvelopes` | `src/state-codec.ts:232-247` | a line is an event exactly if it is an object with a natural sequence, a time and a name whose known members have their types |
| `AuditLines.EncodeInjective` | `src/store.ts:733-736` | an event's line determines the event and where it ends |
| `AuditLines.FragmentIsNoEvent` | `src/store.ts:656-666` | a line cut short is no event |
| `Utf8.RoundTrip` | `src/store.ts:738` | text written as UTF-8 is read back |
| `Utf8.DecodeSplits` | `src/store.ts:652-656` | an ASCII character stands alone, however malformed the bytes before it are |
| `AuditLog.CutLineIsNoEvent` | `src/store.ts:656-666` | nor is what is decoded of a line cut at any byte, in the middle of a character included |
| `AuditLog.AppendReads` | `src/store.ts:723-743` | what is appended after a file, torn or not, is read in full and damages nothing before it |
| `AuditLog.TornAppendReads` | `src/store.ts:723-743` | an append cut at any byte adds its first events and nothing else |
| `AuditLog.AcknowledgedExactlyOnce` | `src/store.ts:315-333` | after any run of appends, tears, rotations and interrupted compactions a full read is in strictly increasing sequence and holds every acknowledged event once |
| `AuditLog.DraftsAreRead` | `src/store.ts:315-333` | what is drafted is read and acknowledged, each with its own content under the next number |
| `AuditLog.CompressedKeeps` | `src/storage.ts:276-329` | writing a compressed copy, torn or whole, changes nothing that is read |
| `AuditReads.BoundedReadIsCompleteExactly` | `src/store.ts:601-696` | a read of all files with room for everything is complete exactly when, in each file, the part before the tail and the tail's first line that is not blank hold no event |
| `AuditReads.LimitedRead` | `src/store.ts:675-696` | though it stops early, a read with a limit gives the last events that the tails of all files hold |
| `AuditReads.ReadsInOrder` | `src/store.ts:693-695` | what a read hands to its sort is in strictly increasing sequence already, in every reachable world |
| `AuditReads.LargeFileIsNotCovered` | `src/store.ts:636-659` | a file of whole lines larger than the tail is never read in full |
| `AuditReads.ReadMissesAcknowledged` | `src/store.ts:601-696` | for every tail there is a run of one append after which a read with room for everything does not give all acknowledged events |
| `AuditLog.AuditStore.Record` | `src/store.ts:318-322` | each recorded event takes the next sequence number |
| `AuditLog.AuditStore.Append` | `src/store.ts:723-743` | a reader finds what it found before and the appended events |
| `Capture.OutputCapture.Append` | `src/process.ts:143-164` | what is held is a function of the stream so far: all of it, or its two ends |
| `Capture.CaptureAll` | `src/process.ts:135-171` | the captured value depends on the stream and not on its chunks |
| `Capture.BoundedExactlyWhenPositive` | `src/process.ts:152-164` | of a longer stream exactly limit bytes are kept, first three quarters and last, if and only if the limit is at least one |
| `Capture.FrameReader.Read` | `src/process.ts:361-385` | after any chunk the fields are where the stream so far puts a reader: all of it text while no frame has begun, and before, in or after the frame of any stream it is the beginning of |
| `Capture.FrameReader.Close` | `src/process.ts:421` | in the end the text is the whole stream, or all but its one frame in order, and the frame gave the exit code |
| `Capture.CodeIsRead` | `src/process.ts:361-385` | every exit code of up to ten digits, written in decimal, is read as that number |
| `Capture.ReadAll` | `src/process.ts:361-421` | reading every chunk and then releasing what was held back gives what the fold over the chunks gives |
| `Capture.NoFrameIsText` | `src/process.ts:361-385` | a stream without a frame comes out as text, whatever its chunks |
| `Capture.FrameIsTakenOut` | `src/process.ts:361-385` | a stream with one frame gives its exit code and the rest as text in order, whatever its chunks |
| `Quoting.QuoteWindowsArgument` | `src/service.ts:215-233` | the loop with its backslash count writes the specified quoting |
| `Quoting.ArgumentsRoundTrip` | `src/service.ts:284` | reading the joined line by the CommandLineToArgvW rules gives back the argument list |
| `Quoting.XmlRoundTrip` | `src/service.ts:66-72` | reading escaped text back gives the text, though the replacements run one after another |
| `Quoting.EscapedXmlIsSafe` | `src/service.ts:66-72` | escaped text holds no angle bracket and no quotation mark |
| `Quoting.TaskArgumentsRoundTrip` | `src/service.ts:280-285` | the arguments survive quoting, joining and escaping together |
| `Quoting.ShellRoundTrip` | `src/process.ts:34-36` | a shell reads a line of quoted values back as those values |
| `Json.ReadsBack` | `src/provenance.ts:73-89` | a reader of the grammar of RFC 8259, with room for whitespace or without, finds in a value's text that value and where it ends |
| `Json.StringIsShortest` | `src/provenance.ts:74` | no JSON text for a string is shorter than the one written |
| `Json.OnlyEscape` | `src/provenance.ts:74` | and character by character none other is as short, upper-case digits aside |
| `Json.PrintInjective` | `src/provenance.ts:73-89` | text determines a value and where it ends |
| `CanonicalForm.CanonicalJsonReads` | `src/provenance.ts:73-89` | any reader finds in canonical text, which has no insignificant space, a value that says the same with its keys in order all the way down |
| `CanonicalForm.CanonicalJsonIsExact` | `src/provenance.ts:73-89` | two values have one canonical text exactly when they have one meaning |
| `CanonicalForm.PayloadIsExact` | `src/provenance.ts:91-94` | two manifests have one signing payload exactly when they mean the same but for the signature |
| `Attestation.PaeReads` | `src/submission-attestation.ts:106-114` | a reader of the DSSE v1 encoding finds the type and the payload |
| `Attestation.PaeIsInjective` | `src/submission-attestation.ts:106-114` | the pre-authentication encoding determines type and payload |
| `Attestation.GroupsAreBits` | `src/submission-attestation.ts:120-134` | the encoding the code compares with is the bits of the input in groups of six, as RFC 4648 has it |
| `Attestation.DecodesExactlyEncodings` | `src/submission-attestation.ts:120-134` | any text is decoded exactly when it keeps to one alphabet and encodes bytes within the limit, fully padded or not at all, and to those bytes |
| `Attestation.DecodingIsUnambiguous` | `src/submission-attestation.ts:120-134` | texts for the same bytes differ only in alphabet and padding |

## Left out

- Running Git, the forge client, service loaders and validators: each answer is an arbitrary input, and a commit graph is an abstract map.
- Cryptography, key storage and signatures: only the bytes that are signed are modelled.
- Command line, MCP server, status text, hooks, bootstrap, support bundles and configuration checks: text and plumbing.
- Worktree administration, permission repair, inode checks and resource ceilings: host behaviour; a worktree is present or absent, intact or not.
- Warnings, error texts, validation lists and manifests of Coordinate records: they decide nothing that is proved.
- Operator unlock, forced clearing of execution records, and a read of a lock's owner that is separated from the probe of its process: outside the lock protocol as modelled, answered in the code by the fence at `src/store.ts:351`.
- Legacy lock records without a nonce: they need the operator's unlock.
- Two processes of one batch lock: the lock is a set of held batches, and its exclusion is what module Locks proves.
- Patterns.OverlapSound: for patterns without backslashes and for paths whose components are named; escapes, negation, braces and extglobs are not in the matcher.
- Gate: others may delete the ref or move it, but not recreate it at the recorded commit, which would hide a loss that a crashed attempt had seen and not yet written down.
- The order in which submissions are listed: only that each is listed once.
- Attestation inputs and the verification of a statement's fields: checks on single values.
- Task identifiers and keys are compared as numbers or by code point; locale-specific comparison is not modelled.
- Timestamps are readings of one clock that never runs backwards; unparsable ones do not occur.
- JSON numbers are integers of any size: a text with a fraction or an exponent is not read, and strings have no lone surrogates.
- Whether the time of an audit event can be parsed: any string is taken for one.
- Rotation stamps increase: two rotations within one millisecond are not modelled, nor a clock set back between rotations, which the sort by sequence number makes good in a read with room for everything.
- Operations of several transactions that go on deciding from the record they read first (`src/broker.ts:4004-4179`, `src/broker.ts:2180-2232`): after each write the view is the stored record, so after a write over a caught record such an operation ends here where the code may go on.
- Expansions, here-documents and reserved words of the shell: a word that would need one is not read.
- ApprovalSafety.SyncedMergeLanded: that the forge's answer is true is an assumption; what is proved is what the broker concludes from it.
- AuditReads.BoundedReadIsCompleteExactly: the limit is at least one; a limit of zero is answered with the whole tail of the active file.
- Serialized patterns are fixed for a whole run: when the configuration changes, leases granted before keep their scopes.
- XML line-end normalisation and characters that XML does not allow: the reader takes every other character as it is.
