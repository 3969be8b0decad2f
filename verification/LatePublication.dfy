/**
 What may follow the race of `Counterexamples`' second run, in which a batch fails while a publisher
 holds its lock. The task goes into a second batch, and the first is published late, with these ends:
 two batches are outstanding though nothing was forced; or, if the second was marked as merged in between,
 its task is published again, so that it can be reopened, which drops the approval the batch was merged
 on; and a revision recorded then is lost when the merged batch is pruned.

 An operation drops the batch lock when it ends and the next one takes it again, which changes
 nothing here and is left out of the runs.
 */
module LatePublication {
  import opened Common
  import opened Records
  import opened CandidateLifecycle
  import opened Coordinate
  import opened BatchRecords
  import opened Coherence
  import opened ApprovalSafety
  import opened RevisionAtomicity
  import opened Counterexamples
  import Pruning

  const POLICY := Policy(true, 0, [], [], [])
  const APPROVING := Config(POLICY, false)

  // ---- Records and states ----

  function First(): Batch {
    InMemory().(status := Prepared)
  }

  function FirstFailed(): Batch {
    First().(status := BatchFailed, branchName := None)
  }

  function FirstPublished(): Batch {
    AsPublished(FirstFailed(), Some(44))
  }

  function FirstViolated(): Batch {
    AsViolated(FirstPublished(), 0).(refreshRequired := false, refreshClose := None)
  }

  function Sent(state: CandidateState, approval: Option<Approval>): Candidate {
    Candidate(1, 10, 0, 0, state, [], [], approval)
  }

  function Approval0(confirmed: bool): Option<Approval> {
    Some(Approval(10, 0, 0, 0, confirmed, false))
  }

  function Second(status: BatchStatus, c: Candidate): Batch {
    Assembling().(status := status, branchName := Some(4), headSha := Some(10), candidate := Some(c), finishedAt := Some(0))
  }

  function SecondPublished(c: Candidate): Batch {
    Second(BatchPublished, c).(pullRequest := Some(45))
  }

  function SecondQuiet(c: Candidate): Batch {
    SecondPublished(c).(autoMergeEnabled := Some(false))
  }

  function SecondMerged(c: Candidate): Batch {
    SecondQuiet(c).(status := BatchMerged)
  }

  function SecondPending(): Batch {
    var b := SecondMerged(Sent(ChangesRequested, None));
    b.(revision := Some(RevisionIntent(2, 1, 10, 11, Rebuilt(b, POLICY, 11, 0, 2, 0), Receipt([6], ["a"], None))))
  }

  /** The pull request of the second batch, which stays open. */
  function Pull(): PullRequest {
    PullRequest(PullRequestState.Open, Some(10), Some(0), Some(0), Some(false), false, false, [])
  }

  function MergedTask(status: TaskStatus, lease: Option<Lease>): Task {
    TheTask(status, lease, Some(2)).(mergedAt := Some(0))
  }

  function Both(task: Task, first: Batch, second: Batch, views: map<BatchId, Batch>, integration: Integration): State {
    At(task, map[1 := first, 2 := second], views, integration)
  }

  /** Both batch locks are held, by one whose view of the first batch is `seen`. */
  function Open(task: Task, first: Batch, second: Batch, seen: Batch, integration: Integration): State {
    Both(task, first, second, map[1 := seen, 2 := second], integration)
  }

  lemma PairOverwritten<T>(x: T, y: T, z: T)
    ensures map[1 := x, 2 := y][2 := z] == map[1 := x, 2 := z] && map[1 := x, 2 := y][1 := z] == map[1 := z, 2 := y]
    ensures map[1 := x][2 := z] == map[1 := x, 2 := z]
  {
  }

  // ---- What a step applies ----

  lemma Approves(s: State, id: BatchId, binding: Binding, pr: PullRequest)
    ensures Apply(s, SApprove(id, binding, 0, POLICY, pr)) == ApproveBatch(s, id, binding, 0, POLICY, pr)
  {
  }

  lemma MarksMerged(s: State, id: BatchId)
    ensures Apply(s, SMarkMerged(id, POLICY, 0)) == MarkMergedLocked(s, id, POLICY, 0)
  {
  }

  lemma Reopens(s: State, t: TaskId, id: BatchId)
    ensures Apply(s, SReopen(t, id, None, LEASE, POLICY)) == ReopenTask(s, t, id, None, LEASE, POLICY)
  {
  }

  lemma Revises(s: State, id: BatchId, t: TaskId)
    ensures Apply(s, SBeginRevision(id, t, 7, Pull())) == BeginRevision(s, id, t, 7, Pull())
  {
  }

  lemma RecordsRevision(s: State, head: Sha, receipt: Receipt)
    ensures Apply(s, SRecordRevision(7, head, 0, receipt, POLICY)) == RecordRevision(s, 7, head, 0, receipt, POLICY)
  {
  }

  lemma Retires(s: State, t: TaskId)
    ensures Apply(s, SCancel(t, None, true)) == CancelTask(s, t, None, true)
    ensures Apply(s, SPrune(0)) == Prune(s, 0)
  {
  }

  // ---- The race, and a second batch for the task ----

  lemma CaughtRuns()
    ensures Run([], CaughtRun().0, CaughtRun().1)
  {
    PreparationRuns();
    CatchTakesLock();
    CatchFails();
    RunsJoin(PreparationStates(), Preparation(), CatchStates()[..2], CatchSteps()[..2]);
  }

  function CaughtRun(): (seq<State>, seq<Step>) {
    (PreparationStates() + CatchStates()[..2], Preparation() + CatchSteps()[..2])
  }

  function SecondSteps(): seq<Step> {
    [SRetry(1, None),
     STakeIntegration,
     SCheckOutstanding(false, false),
     SStart(2, [TheTask(Submitted, None, None)], 0, 0, true, false),
     SRecordBranch(4, 10, POLICY),
     SPrepare]
  }

  function Resubmitted(integration: Integration): State {
    At(TheTask(Submitted, None, None), map[1 := FirstFailed()], map[1 := First()], integration)
  }

  function BuildingSecond(status: TaskStatus, stored: Batch, mem: Batch): State {
    Both(TheTask(status, None, Some(2)), FirstFailed(), stored, map[1 := First()], Building(2, mem, false, false))
  }

  function Branched2(): Batch {
    Assembling().(branchName := Some(4), headSha := Some(10))
  }

  function Mem2(): Batch {
    Second(Running, Sent(ReadyForApproval, None))
  }

  function Prepared2(): Batch {
    Second(Prepared, Sent(ReadyForApproval, None))
  }

  function SecondStates(): seq<State> {
    [Resubmitted(Free),
     Resubmitted(Recovering),
     Resubmitted(Cleared(false, false)),
     BuildingSecond(Integrating, Assembling(), Assembling()),
     BuildingSecond(Integrating, Branched2(), Mem2()),
     BuildingSecond(Batched, Prepared2(), Prepared2())]
  }

  lemma Resubmits()
    ensures RetryTask(CatchStates()[1], 1, None) == Some(Resubmitted(Free))
  {
    Overwritten(1, TheTask(Failed, None, None), TheTask(Submitted, None, None));
  }

  lemma Rechecks()
    ensures TakeIntegrationLock(Resubmitted(Free)) == Some(Resubmitted(Recovering))
    ensures CheckOutstanding(Resubmitted(Recovering), false, false) == Some(Resubmitted(Cleared(false, false)))
  {
  }

  lemma SecondStarts()
    ensures StartBatch(Resubmitted(Cleared(false, false)), 2, [TheTask(Submitted, None, None)], 0, 0, true, false)
            == Some(BuildingSecond(Integrating, Assembling(), Assembling()))
  {
    OneTaskPlanned(TheTask(Submitted, None, None));
    OneTaskEdited(TheTask(Submitted, None, None), EnterIntegration(2));
    PairOverwritten(FirstFailed(), Assembling(), Assembling());
  }

  lemma CandidateMade()
    ensures MakeCandidate(POLICY, 10, 0, 1) == Sent(ReadyForApproval, None)
  {
    assert RequiredEvidence(POLICY) == [];
  }

  lemma SecondBranches()
    ensures RecordBranch(BuildingSecond(Integrating, Assembling(), Assembling()), 4, 10, POLICY)
            == Some(BuildingSecond(Integrating, Branched2(), Mem2()))
  {
    CandidateMade();
    PairOverwritten(FirstFailed(), Assembling(), Branched2());
  }

  lemma SecondPrepares()
    ensures PrepareBatch(BuildingSecond(Integrating, Branched2(), Mem2())) == Some(BuildingSecond(Batched, Prepared2(), Prepared2()))
  {
    OneTaskEdited(TheTask(Integrating, None, Some(2)), ToBatched);
    PairOverwritten(FirstFailed(), Branched2(), Prepared2());
  }

  lemma SecondStep(i: nat)
    requires i < 6
    ensures Apply(if i == 0 then CatchStates()[1] else SecondStates()[i - 1], SecondSteps()[i]) == Some(SecondStates()[i])
  {
    if i == 0 { Works(CatchStates()[1], 1, Receipt([], [], None)); Resubmits(); }
    else if i < 3 { Locks(SecondStates()[i - 1], 0); Rechecks(); }
    else if i == 3 { Starts(SecondStates()[2], 2, [TheTask(Submitted, None, None)]); SecondStarts(); }
    else { Assembles(SecondStates()[i - 1], 4, 10, POLICY); SecondBranches(); SecondPrepares(); }
  }

  function SecondRun(): (seq<State>, seq<Step>) {
    (CaughtRun().0 + SecondStates(), CaughtRun().1 + SecondSteps())
  }

  lemma SecondRuns()
    ensures Run([], SecondRun().0, SecondRun().1)
  {
    CaughtRuns();
    SecondStep(0);
    forall i | 0 < i < 6 ensures Apply(SecondStates()[i - 1], SecondSteps()[i]) == Some(SecondStates()[i]) { SecondStep(i); }
    RunsJoin(CaughtRun().0, CaughtRun().1, SecondStates(), SecondSteps());
  }

  // ---- First end: two outstanding batches ----

  function BothOut(): State {
    Both(TheTask(Published, None, Some(2)), FirstPublished(), Prepared2(), map[1 := FirstPublished()],
         Building(2, Prepared2(), false, false))
  }

  lemma LatePublishes()
    ensures PublishBatch(BuildingSecond(Batched, Prepared2(), Prepared2()), 1, Some(44)) == Some(BothOut())
  {
    OneTaskEdited(TheTask(Batched, None, Some(2)), ToPublished);
    PairOverwritten(FirstFailed(), Prepared2(), FirstPublished());
    Overwritten(1, First(), FirstPublished());
  }

  function LateRun(): (seq<State>, seq<Step>) {
    (SecondRun().0 + [BothOut()], SecondRun().1 + [SPublish(1, Some(44))])
  }

  lemma LateRuns()
    ensures Run([], LateRun().0, LateRun().1)
  {
    SecondRuns();
    Publishes(BuildingSecond(Batched, Prepared2(), Prepared2()), 1, Some(44));
    LatePublishes();
    RunsJoin(SecondRun().0, SecondRun().1, [BothOut()], [SPublish(1, Some(44))]);
  }

  lemma NothingForced()
    ensures forall i | 0 <= i < |LateRun().1| :: Unforced(LateRun().1[i])
  {
    assert forall i | 0 <= i < 7 :: Unforced(Preparation()[i]);
    assert forall i | 0 <= i < 2 :: Unforced(CatchSteps()[..2][i]);
    assert forall i | 0 <= i < 6 :: Unforced(SecondSteps()[i]);
  }

  /** Nothing was forced, and two batches are outstanding. */
  lemma TwoBatchesAreOutstanding()
    ensures Run([], LateRun().0, LateRun().1) && LateRun().0[16] == BothOut()
    ensures forall i | 0 <= i < |LateRun().1| :: Unforced(LateRun().1[i])
    ensures !AtMostOne(BothOut()) && BothOut().batches[1].status == BatchPublished && BothOut().batches[2].status == Prepared
  {
    LateRuns();
    NothingForced();
    assert Outstanding(BothOut().batches[1]) && Outstanding(BothOut().batches[2]);
  }

  // ---- Second end: a merged batch loses its approval ----

  function MergingSteps(): seq<Step> {
    [SDropIntegration,
     STakeBatch(2),
     SPublish(2, Some(45)),
     SApprove(2, Binding(10, 0, None), 0, POLICY, Pull()),
     SSync(2, APPROVING, Pull(), false, false, Reconcile),
     SMarkMerged(2, POLICY, 0),
     SPublish(1, Some(44)),
     SReopen(1, 2, None, LEASE, POLICY)]
  }

  /** The first batch failed, its publisher does not know, and the second is being worked on. */
  function Unaware(task: Task, second: Batch): State {
    Open(task, FirstFailed(), second, First(), Free)
  }

  function Aware(task: Task, second: Batch): State {
    Open(task, FirstPublished(), second, FirstPublished(), Free)
  }

  function MergingStates(): seq<State> {
    [IdleState(), LockedState(), PublishedSecond(), ApprovedState(), ConfirmedState(), MergedState(), RepublishedState(),
     ReopenedState()]
  }

  function IdleState(): State {
    Both(TheTask(Batched, None, Some(2)), FirstFailed(), Prepared2(), map[1 := First()], Free)
  }

  function LockedState(): State {
    Unaware(TheTask(Batched, None, Some(2)), Prepared2())
  }

  function PublishedSecond(): State {
    Unaware(TheTask(Published, None, Some(2)), SecondPublished(Sent(ReadyForApproval, None)))
  }

  function ApprovedState(): State {
    Unaware(TheTask(Published, None, Some(2)), SecondPublished(Sent(Approved, Approval0(false))))
  }

  function ConfirmedState(): State {
    Unaware(TheTask(Published, None, Some(2)), SecondQuiet(Sent(Approved, Approval0(true))))
  }

  function RepublishedState(): State {
    Aware(MergedTask(Published, None), SecondMerged(Sent(CandidateMerged, Approval0(true))))
  }

  function MergedState(): State {
    Unaware(MergedTask(Merged, None), SecondMerged(Sent(CandidateMerged, Approval0(true))))
  }

  function ReopenedState(): State {
    Aware(MergedTask(Published, Some(LEASE)), SecondMerged(Sent(ChangesRequested, None)))
  }

  lemma LocksMove()
    ensures DropIntegrationLock(BuildingSecond(Batched, Prepared2(), Prepared2())) == Some(IdleState())
    ensures TakeBatchLock(IdleState(), 2) == Some(LockedState())
  {
    PairOverwritten(First(), Prepared2(), Prepared2());
  }

  lemma SecondPublishes()
    ensures PublishBatch(LockedState(), 2, Some(45)) == Some(PublishedSecond())
  {
    OneTaskEdited(TheTask(Batched, None, Some(2)), ToPublished);
    PairOverwritten(FirstFailed(), Prepared2(), SecondPublished(Sent(ReadyForApproval, None)));
    PairOverwritten(First(), Prepared2(), SecondPublished(Sent(ReadyForApproval, None)));
  }

  /** A write of the second batch under its lock. */
  lemma SecondPut(task: Task, b: Batch, c: Batch)
    ensures Put(Unaware(task, b), 2, c) == Unaware(task, c)
  {
    PairOverwritten(FirstFailed(), b, c);
    PairOverwritten(First(), b, c);
  }

  lemma Approvable2()
    ensures var c := Sent(ReadyForApproval, None);
            Approve(c, POLICY, 0) == Sent(Approved, Approval0(false)) && PolicyCurrent(POLICY, c)
  {
    assert RequiredEvidence(POLICY) == [];
  }

  lemma SecondApproves()
    ensures ApproveBatch(PublishedSecond(), 2, Binding(10, 0, None), 0, POLICY, Pull()) == Some(ApprovedState())
  {
    Approvable2();
    SecondPut(TheTask(Published, None, Some(2)), SecondPublished(Sent(ReadyForApproval, None)),
              SecondPublished(Sent(Approved, Approval0(false))));
  }

  lemma ReconcileDecided()
    ensures var v := SecondPublished(Sent(Approved, Approval0(false)));
            SyncGuard(v) && SyncDecided(v, APPROVING, Pull(), false, false, Reconcile)
  {
    assert RequiredEvidence(POLICY) == [];
  }

  lemma ApprovalConfirmed()
    ensures ConfirmOrDrop(Observed(Sent(Approved, Approval0(false)), POLICY, Pull()))
            == Sent(Approved, Approval0(true))
  {
    var c := Sent(Approved, Approval0(false));
    assert WithoutChecks([], []) + ObservedChecks(c, Pull(), []) == [];
  }

  lemma ReconciledConfirms()
    ensures Reconciled(SecondPublished(Sent(Approved, Approval0(false))), APPROVING, Pull())
            == SecondQuiet(Sent(Approved, Approval0(true)))
  {
    assert RequiredEvidence(POLICY) == [];
    ApprovalConfirmed();
  }

  lemma SecondReconciles()
    ensures Apply(ApprovedState(), SSync(2, APPROVING, Pull(), false, false, Reconcile)) == Some(ConfirmedState())
  {
    ReconcileDecided();
    Syncs(ApprovedState(), 2, APPROVING, Pull(), Reconcile);
    ReconciledConfirms();
    SecondPut(TheTask(Published, None, Some(2)), SecondPublished(Sent(Approved, Approval0(false))),
              SecondQuiet(Sent(Approved, Approval0(true))));
  }

  lemma SecondMayMerge()
    ensures MergePermitted(SecondQuiet(Sent(Approved, Approval0(true))), POLICY)
  {
    assert RequiredEvidence(POLICY) == [];
  }

  lemma SecondAsMerged()
    ensures AsMerged(SecondQuiet(Sent(Approved, Approval0(true))), 0) == SecondMerged(Sent(CandidateMerged, Approval0(true)))
  {
  }

  lemma Marked(s: State, id: BatchId)
    requires Held(s, id) && MergePermitted(s.batches[id], POLICY) && TasksKnown(s, s.batches[id].taskIds)
    requires !Reassigned(s, id, s.batches[id].taskIds)
    ensures MarkMergedLocked(s, id, POLICY, 0) == Some(PutAll(s, id, AsMerged(s.batches[id], 0), ToMerged(0)))
  {
  }

  lemma SecondMarks()
    ensures MarkMergedLocked(ConfirmedState(), 2, POLICY, 0) == Some(MergedState())
  {
    var b := SecondQuiet(Sent(Approved, Approval0(true)));
    assert ConfirmedState() == Unaware(TheTask(Published, None, Some(2)), b);
    SecondMayMerge();
    Marked(Unaware(TheTask(Published, None, Some(2)), b), 2);
    SecondAsMerged();
    OneTaskEdited(TheTask(Published, None, Some(2)), ToMerged(0));
    SecondPut(TheTask(Published, None, Some(2)), b, SecondMerged(Sent(CandidateMerged, Approval0(true))));
  }

  lemma FirstPublishesLate()
    ensures PublishBatch(MergedState(), 1, Some(44)) == Some(RepublishedState())
  {
    var b := SecondMerged(Sent(CandidateMerged, Approval0(true)));
    OneTaskEdited(MergedTask(Merged, None), ToPublished);
    PairOverwritten(FirstFailed(), b, FirstPublished());
    PairOverwritten(First(), b, FirstPublished());
  }

  lemma MergedReopens()
    ensures ReopenTask(RepublishedState(), 1, 2, None, LEASE, POLICY) == Some(ReopenedState())
  {
    var b, c := SecondMerged(Sent(CandidateMerged, Approval0(true))), SecondMerged(Sent(ChangesRequested, None));
    SingletonDedup("a");
    Overwritten(1, MergedTask(Published, None), MergedTask(Published, Some(LEASE)));
    PairOverwritten(FirstPublished(), b, c);
  }

  lemma FirstMergingSteps()
    ensures Apply(BuildingSecond(Batched, Prepared2(), Prepared2()), SDropIntegration) == Some(IdleState())
    ensures Apply(IdleState(), STakeBatch(2)) == Some(LockedState())
  {
    Locks(BuildingSecond(Batched, Prepared2(), Prepared2()), 2);
    Locks(IdleState(), 2);
    LocksMove();
  }

  lemma SecondPublishStep()
    ensures Apply(LockedState(), SPublish(2, Some(45))) == Some(PublishedSecond())
  {
    Publishes(LockedState(), 2, Some(45));
    SecondPublishes();
  }

  lemma SecondApproveStep()
    ensures Apply(PublishedSecond(), SApprove(2, Binding(10, 0, None), 0, POLICY, Pull())) == Some(ApprovedState())
  {
    Approves(PublishedSecond(), 2, Binding(10, 0, None), Pull());
    SecondApproves();
  }

  lemma LateMergingSteps()
    ensures Apply(ConfirmedState(), SMarkMerged(2, POLICY, 0)) == Some(MergedState())
    ensures Apply(MergedState(), SPublish(1, Some(44))) == Some(RepublishedState())
  {
    MarksMerged(ConfirmedState(), 2);
    SecondMarks();
    Publishes(MergedState(), 1, Some(44));
    FirstPublishesLate();
  }

  lemma ReopenStep()
    ensures Apply(RepublishedState(), SReopen(1, 2, None, LEASE, POLICY)) == Some(ReopenedState())
  {
    Reopens(RepublishedState(), 1, 2);
    MergedReopens();
  }

  function ReopeningRun(): (seq<State>, seq<Step>) {
    (SecondRun().0 + MergingStates(), SecondRun().1 + MergingSteps())
  }

  lemma MergingStep(i: nat)
    requires 0 < i < 8
    ensures Apply(MergingStates()[i - 1], MergingSteps()[i]) == Some(MergingStates()[i])
  {
    FirstMergingSteps();
    SecondPublishStep();
    SecondApproveStep();
    SecondReconciles();
    LateMergingSteps();
    ReopenStep();
  }

  lemma ReopeningRuns()
    ensures Run([], ReopeningRun().0, ReopeningRun().1)
  {
    SecondRuns();
    FirstMergingSteps();
    forall i | 0 < i < 8 ensures Apply(MergingStates()[i - 1], MergingSteps()[i]) == Some(MergingStates()[i]) { MergingStep(i); }
    RunsJoin(SecondRun().0, SecondRun().1, MergingStates(), MergingSteps());
  }

  /** The run ends in `MergingStates`: the merged batch's task is reopened, and the approval it was merged
      on is gone. */
  lemma MergedBatchIsReopened()
    ensures Run([], ReopeningRun().0, ReopeningRun().1)
    ensures MergedIn(MergedState(), 2) && CandidateIn(MergedState(), 2).value.approval.Some?
    ensures ReopensMerged(RepublishedState(), SReopen(1, 2, None, LEASE, POLICY), 2)
    ensures MergedIn(ReopenedState(), 2) && CandidateIn(ReopenedState(), 2).value.approval.None?
  {
    ReopeningRuns();
    ReopenStep();
  }

  // ---- Third end: a recorded revision is pruned ----

  function PruningSteps(): seq<Step> {
    [SBeginRevision(2, 1, 7, Pull()),
     SRecordRevision(7, 11, 0, Receipt([6], ["a"], None), POLICY),
     SSync(1, CONFIG, ClosedPull(8), false, false, FailBatch),
     SCancel(1, None, true),
     SPrune(0)]
  }

  function RevisingState(task: Task, first: Batch, second: Batch): State {
    Open(task, first, second, first, Revising(2, 1))
  }

  function PruningStates(): seq<State> {
    [RevisingFrom(), RecordedState(), ViolatedState(), CancelledState(), PrunedState()]
  }

  function RevisingFrom(): State {
    RevisingState(MergedTask(Published, Some(LEASE)), FirstPublished(), SecondMerged(Sent(ChangesRequested, None)))
  }

  function RecordedState(): State {
    RevisingState(MergedTask(Published, Some(LEASE)), FirstPublished(), SecondPending())
  }

  function ViolatedState(): State {
    RevisingState(MergedTask(TaskStatus.Failed, Some(LEASE)), FirstViolated(), SecondPending())
  }

  function CancelledState(): State {
    RevisingState(MergedTask(Cancelled, None), FirstViolated(), SecondPending())
  }

  function PrunedState(): State {
    Prune(CancelledState(), 0).value
  }

  lemma RevisionBegins()
    ensures BeginRevision(ReopenedState(), 2, 1, 7, Pull()) == Some(RevisingFrom())
  {
    var b := SecondMerged(Sent(ChangesRequested, None));
    PairOverwritten(FirstPublished(), b, b);
  }

  lemma RevisionRecorded()
    ensures RecordRevision(RevisingFrom(), 7, 11, 0, Receipt([6], ["a"], None), POLICY) == Some(RecordedState())
  {
    PairOverwritten(FirstPublished(), SecondMerged(Sent(ChangesRequested, None)), SecondPending());
  }

  lemma LateMovedPullFails()
    ensures SyncGuard(FirstPublished()) && SyncDecided(FirstPublished(), CONFIG, ClosedPull(8), false, false, FailBatch)
  {
  }

  lemma FirstFails()
    ensures CommitSync(RecordedState(), 1, CONFIG, ClosedPull(8), FailBatch) == Some(ViolatedState())
  {
    OneTaskEdited(MergedTask(Published, Some(LEASE)), ToFailed);
    PairOverwritten(FirstPublished(), SecondPending(), FirstViolated());
  }

  lemma FirstSyncs()
    ensures Apply(RecordedState(), SSync(1, CONFIG, ClosedPull(8), false, false, FailBatch)) == Some(ViolatedState())
  {
    LateMovedPullFails();
    Syncs(RecordedState(), 1, CONFIG, ClosedPull(8), FailBatch);
    FirstFails();
  }

  lemma TaskCancels()
    ensures CancelTask(ViolatedState(), 1, None, true) == Some(CancelledState())
  {
    Overwritten(1, MergedTask(TaskStatus.Failed, Some(LEASE)), MergedTask(Cancelled, None));
  }

  lemma RevisionSteps()
    ensures Apply(ReopenedState(), SBeginRevision(2, 1, 7, Pull())) == Some(RevisingFrom())
    ensures Apply(RevisingFrom(), SRecordRevision(7, 11, 0, Receipt([6], ["a"], None), POLICY)) == Some(RecordedState())
  {
    Revises(ReopenedState(), 2, 1);
    RecordsRevision(RevisingFrom(), 11, Receipt([6], ["a"], None));
    RevisionBegins();
    RevisionRecorded();
  }

  lemma RetiringSteps()
    ensures Apply(ViolatedState(), SCancel(1, None, true)) == Some(CancelledState())
    ensures Apply(CancelledState(), SPrune(0)) == Some(PrunedState())
  {
    Retires(ViolatedState(), 1);
    Retires(CancelledState(), 1);
    TaskCancels();
  }

  function LosingRun(): (seq<State>, seq<Step>) {
    (ReopeningRun().0 + PruningStates(), ReopeningRun().1 + PruningSteps())
  }

  lemma PruningStep(i: nat)
    requires 0 < i < 5
    ensures Apply(PruningStates()[i - 1], PruningSteps()[i]) == Some(PruningStates()[i])
  {
    RevisionSteps();
    FirstSyncs();
    RetiringSteps();
  }

  lemma LosingRuns()
    ensures Run([], LosingRun().0, LosingRun().1)
  {
    ReopeningRuns();
    RevisionSteps();
    forall i | 0 < i < 5 ensures Apply(PruningStates()[i - 1], PruningSteps()[i]) == Some(PruningStates()[i]) { PruningStep(i); }
    RunsJoin(ReopeningRun().0, ReopeningRun().1, PruningStates(), PruningSteps());
  }

  lemma PendingIsSelected()
    ensures Selects(CancelledState(), SPrune(0), 2)
  {
    var s := CancelledState();
    assert 1 in Pruning.Completed(s.tasks, 0);
    assert 1 in Pruning.Retirable(s.tasks, 0);
  }

  lemma RevisionIsPending()
    ensures Recorded(RevisingFrom(), RecordedState(), 2) && CancelledState().batches[2] == RecordedState().batches[2]
  {
    PairOverwritten(FirstPublished(), SecondMerged(Sent(ChangesRequested, None)), SecondPending());
  }

  lemma SelectedIsLost(s: State, id: BatchId)
    requires Selects(s, SPrune(0), id)
    ensures id !in Prune(s, 0).value.batches
  {
  }

  /** The run ends in `PruningStates`: a revision of the merged batch is recorded, and then neither
      finished nor forgotten, but pruned with its batch. */
  lemma RecordedRevisionIsPruned()
    ensures Run([], LosingRun().0, LosingRun().1)
    ensures Recorded(RevisingFrom(), RecordedState(), 2) && CancelledState().batches[2] == RecordedState().batches[2]
    ensures Selects(CancelledState(), SPrune(0), 2) && 2 !in PrunedState().batches
  {
    LosingRuns();
    RevisionIsPending();
    PendingIsSelected();
    SelectedIsLost(CancelledState(), 2);
  }
}
