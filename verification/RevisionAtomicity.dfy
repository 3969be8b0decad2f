/**
 Revising a candidate moves a branch and a record, which cannot be done at once. The intent recorded
 first makes it atomic all the same: whatever crashes in between, the batch ends as it was or
 exactly as the uninterrupted revision leaves it, and where the branch is decides which. The one way
 to lose a recorded revision is a pruning that selects its batch.
 */
module RevisionAtomicity {
  import opened Common
  import opened Records
  import opened CandidateLifecycle
  import opened Coordinate
  import opened BatchRecords
  import opened Coherence
  import Pruning

  ghost predicate Pending(s: State, id: BatchId) {
    id in s.batches && s.batches[id].revision.Some?
  }

  /** A batch under revision, or with one recorded, is prepared or published. */
  ghost predicate IntentsOutstanding(s: State) {
    && (forall id | Pending(s, id) :: Outstanding(s.batches[id]))
    && (s.integration.Revising? ==> s.integration.id in s.batches && Outstanding(s.batches[s.integration.id]))
  }

  // ---- Steps that do not resolve a revision ----

  /** Pending revisions stay, with the whole record, and no new one appears. */
  ghost predicate PendingKept(s: State, o: Outcome) {
    o.Some? ==>
      (forall id | Pending(s, id) :: id in o.value.batches && o.value.batches[id] == s.batches[id])
      && (forall id | Pending(o.value, id) :: Pending(s, id))
      && (o.value.integration.Revising? ==>
            o.value.integration == s.integration
            && (o.value.integration.id in s.batches ==>
                  o.value.integration.id in o.value.batches
                  && o.value.batches[o.value.integration.id] == s.batches[o.value.integration.id]))
  }

  predicate Resolving(step: Step) {
    step.SFinishRevision? || step.SRecoverRevision?
  }

  lemma StartKeepsPending(s: State, id: BatchId, plan: seq<Task>, branch: nat, sha: Sha, bound: bool, local: bool)
    ensures PendingKept(s, StartBatch(s, id, plan, branch, sha, bound, local))
  {
  }

  lemma BranchKeepsPending(s: State, branch: nat, sha: Sha, p: Policy)
    requires RecordsOk(s)
    ensures PendingKept(s, RecordBranch(s, branch, sha, p)) && PendingKept(s, FinishDryRun(s, sha))
  {
  }

  lemma PrepareKeepsPending(s: State)
    requires RecordsOk(s)
    ensures PendingKept(s, PrepareBatch(s))
  {
  }

  lemma MemWriteKeepsPending(s: State, step: Step)
    requires RecordsOk(s) && (step.SRecordBranch? || step.SFinishDryRun? || step.SPrepare?)
    ensures PendingKept(s, Apply(s, step))
  {
    match step
    case SRecordBranch(branch, sha, policy) => BranchKeepsPending(s, branch, sha, policy);
    case SFinishDryRun(sha) => BranchKeepsPending(s, 0, sha, Policy(false, 0, [], [], []));
    case SPrepare => PrepareKeepsPending(s);
  }

  lemma FailKeepsPending(s: State, culprit: Option<TaskId>, maxAttempts: nat)
    requires RecordsOk(s)
    ensures PendingKept(s, FailIntegration(s, culprit, maxAttempts))
  {
  }

  lemma AssemblyKeepsPending(s: State, step: Step)
    requires RecordsOk(s) && AssemblyStep(step)
    ensures PendingKept(s, Apply(s, step))
  {
    if step.SStart? { StartKeepsPending(s, step.id, step.plan, step.branch, step.sha, step.bound, step.local); }
    else if step.SFailIntegration? { FailKeepsPending(s, step.culprit, step.maxAttempts); }
    else { MemWriteKeepsPending(s, step); }
  }

  /** Only a running batch is recovered, and no revision of one is pending. */
  lemma RecoverBatchKeepsPending(s: State, id: BatchId)
    requires RecordsOk(s) && s.integration.Recovering?
    ensures PendingKept(s, Some(RecoverBatch(s, id)))
  {
  }

  lemma PendingKeptTwice(s: State, t: State, u: State)
    requires PendingKept(s, Some(t)) && PendingKept(t, Some(u)) && u.integration.Recovering?
    ensures PendingKept(s, Some(u))
  {
  }

  lemma {:induction false} RecoveryKeepsPending(s: State, ids: seq<BatchId>)
    requires RecordsOk(s) && s.integration.Recovering?
    ensures PendingKept(s, Some(RecoverEach(s, ids))) && RecoverEach(s, ids).integration.Recovering?
    decreases |ids|
  {
    if ids != [] {
      var t := RecoverBatch(s, ids[0]);
      RecoverBatchKeeps(s, ids[0]);
      RecoverBatchKeepsPending(s, ids[0]);
      RecoveryKeepsPending(t, ids[1..]);
      PendingKeptTwice(s, t, RecoverEach(t, ids[1..]));
    }
  }

  lemma LockStepKeepsPending(s: State, step: Step)
    requires step.STakeIntegration? || step.SDropIntegration? || step.SCheckOutstanding?
    ensures PendingKept(s, Apply(s, step))
  {
  }

  lemma HousekeepingKeepsPending(s: State, step: Step)
    requires HousekeepingStep(step) && !step.SPrune?
    ensures PendingKept(s, Apply(s, step))
  {
  }

  /** Pruning takes batches away, but never an outstanding one. */
  lemma PruneKeepsPending(s: State, cutoff: Instant)
    requires IntentsOutstanding(s)
    ensures PendingKept(s, Prune(s, cutoff))
  {
  }

  lemma RunningKeepsPending(s: State, ids: seq<BatchId>)
    requires RecordsOk(s)
    ensures PendingKept(s, RecoverRunning(s, ids))
  {
    if s.integration.Recovering? { RecoveryKeepsPending(s, ids); }
  }

  /** The holder of a batch lock refuses to touch a batch with a pending revision. */
  lemma WriteKeepsPending(s: State, o: Outcome, id: BatchId)
    requires Wrote(s, o, id) && !(s.integration.Revising? && s.integration.id == id)
    ensures PendingKept(s, o)
  {
  }

  lemma LockedKeepsPending(s: State, step: Step)
    requires RecordsOk(s) && LockedBatch(s, step).Some? && !step.SRecordRevision?
    ensures PendingKept(s, Apply(s, step))
  {
    LockedStepWrites(s, step);
    LockedStepHolds(s, step);
    if Apply(s, step).Some? { WriteKeepsPending(s, Apply(s, step), step.id); }
  }

  lemma PublishStepHolds(s: State, step: Step)
    requires step.SPublishUnbound? || step.SPublishFailed? || step.SPublish? || step.SPublishQueueAttempt?
             || step.SPublishQueueOutcome? || step.SVerify? || step.SApprove? || step.SApproveUnbound?
    ensures Apply(s, step).Some? ==> Held(s, step.id)
  {
  }

  lemma ChangeStepHolds(s: State, step: Step)
    requires step.SApproveQueueAttempt? || step.SApproveQueueOutcome? || step.SRequestChanges? || step.SCompleteChanges?
             || step.SReopen? || step.SSync? || step.SSyncLanded?
    ensures Apply(s, step).Some? ==> Held(s, step.id)
  {
  }

  lemma CloseStepHolds(s: State, step: Step)
    requires step.SClose? || step.SMarkMerged?
    ensures Apply(s, step).Some? ==> Held(s, step.id)
  {
  }

  lemma RefreshStepHolds(s: State, step: Step)
    requires step.SStartRefresh? || step.SQuietRefresh? || step.SRejectRefresh? || step.SFinishRefresh?
    ensures Apply(s, step).Some? ==> Held(s, step.id)
  {
  }

  lemma LockedStepHolds(s: State, step: Step)
    requires LockedBatch(s, step).Some? && !step.SRecordRevision?
    ensures Apply(s, step).Some? ==> Held(s, step.id)
  {
    if step.SClose? || step.SMarkMerged? { CloseStepHolds(s, step); }
    else if step.SStartRefresh? || step.SQuietRefresh? || step.SRejectRefresh? || step.SFinishRefresh? { RefreshStepHolds(s, step); }
    else if step.SApproveQueueAttempt? || step.SApproveQueueOutcome? || step.SRequestChanges? || step.SCompleteChanges?
            || step.SReopen? || step.SSync? || step.SSyncLanded? { ChangeStepHolds(s, step); }
    else { PublishStepHolds(s, step); }
  }

  lemma OtherStepKeepsPending(s: State, step: Step)
    requires RecordsOk(s) && !step.SPrune?
    requires !Resolving(step) && !step.SRecordRevision? && !step.SBeginRevision?
    ensures PendingKept(s, Apply(s, step))
  {
    if WorkerStep(step) { WorkerStepKeeps(s, step); }
    else if AssemblyStep(step) { AssemblyKeepsPending(s, step); }
    else if step.SRecoverRunning? { RunningKeepsPending(s, step.ids); }
    else if IntegrationStep(step) { LockStepKeepsPending(s, step); }
    else if HousekeepingStep(step) { HousekeepingKeepsPending(s, step); }
    else { LockedKeepsPending(s, step); }
  }

  // ---- The three steps of a revision ----

  /** A revision begins only on a batch that is prepared or published. The code asks this of the task. */
  predicate RevisesOutstanding(s: State, step: Step) {
    step.SBeginRevision? && Apply(s, step).Some? ==> step.id in s.batches && Outstanding(s.batches[step.id])
  }

  /** Where tasks and batches agree it is true of the batch too. */
  lemma CoherentRevisesOutstanding(s: State, step: Step)
    requires Coherent(s)
    ensures RevisesOutstanding(s, step)
  {
    if step.SBeginRevision? && step.t in s.tasks { assert TaskCoherent(s, step.t); }
  }

  lemma BeginKeepsBatches(s: State, step: Step)
    requires step.SBeginRevision?
    ensures var o := Apply(s, step);
            o.Some? ==> o.value.batches == s.batches && o.value.integration == Revising(step.id, step.t)
  {
  }

  /** Recording a revision adds the intent and changes nothing else of any batch. */
  ghost predicate Recorded(s: State, t: State, id: BatchId) {
    id in s.batches && s.batches[id].revision.None? && Pending(t, id)
    && t.batches == s.batches[id := s.batches[id].(revision := t.batches[id].revision)] && t.tasks == s.tasks
  }

  lemma RecordRecords(s: State, token: nat, head: Sha, base: Sha, receipt: Receipt, p: Policy)
    ensures var o := RecordRevision(s, token, head, base, receipt, p);
            o.Some? ==> s.integration.Revising? && o.value.integration == s.integration && Recorded(s, o.value, s.integration.id)
  {
  }

  lemma RecordedOutstanding(s: State, t: State)
    requires IntentsOutstanding(s) && s.integration.Revising? && t.integration == s.integration
    requires Recorded(s, t, s.integration.id)
    ensures IntentsOutstanding(t)
  {
  }

  lemma RecordKeepsOutstanding(s: State, step: Step)
    requires IntentsOutstanding(s) && step.SRecordRevision? && Apply(s, step).Some?
    ensures IntentsOutstanding(Apply(s, step).value)
  {
    RecordRecords(s, step.token, step.head, step.base, step.receipt, step.policy);
    RecordedOutstanding(s, Apply(s, step).value);
  }

  /** Installing the recorded batch, its task's new receipt and the release of its lease, in one step. */
  ghost predicate Installed(s: State, t: State, id: BatchId) {
    Pending(s, id) && Finalizable(s.batches[id])
    && t.batches == s.batches[id := Finalized(s.batches[id])]
    && var intent := s.batches[id].revision.value;
       intent.taskId in s.tasks
       && t.tasks == s.tasks[intent.taskId := RevisedTask(s.tasks[intent.taskId], intent).(updatedAt := s.now)]
  }

  /** Going back to the batch as it was before the intent was recorded. */
  ghost predicate Forgotten(s: State, t: State, id: BatchId) {
    Pending(s, id) && t.batches == s.batches[id := s.batches[id].(revision := None)] && t.tasks == s.tasks
  }

  /** Where the branch is decides: at the candidate, install; at its predecessor, forget. */
  ghost predicate Resolves(s: State, t: State, step: Step, id: BatchId) {
    || (step.SFinishRevision? && s.integration.Revising? && s.integration.id == id && Installed(s, t, id))
    || (step.SRecoverRevision? && step.id == id && Pending(s, id)
        && step.branchHead == s.batches[id].revision.value.candidateSha && Installed(s, t, id))
    || (step.SRecoverRevision? && step.id == id && Pending(s, id)
        && step.branchHead != s.batches[id].revision.value.candidateSha
        && step.branchHead == s.batches[id].revision.value.previousSha && Forgotten(s, t, id))
  }

  lemma FinalizeInstalls(s: State, id: BatchId)
    ensures var o := FinalizeRevision(s, id); o.Some? ==> Installed(s, o.value, id) && o.value.integration == s.integration
  {
  }

  function ResolvedBatch(s: State, step: Step): BatchId
    requires Resolving(step) && (step.SFinishRevision? ==> s.integration.Revising?)
  {
    if step.SRecoverRevision? then step.id else s.integration.id
  }

  lemma ResolvingResolves(s: State, step: Step)
    requires Resolving(step) && Apply(s, step).Some?
    ensures step.SFinishRevision? ==> s.integration.Revising?
    ensures Resolves(s, Apply(s, step).value, step, ResolvedBatch(s, step))
    ensures !Apply(s, step).value.integration.Revising?
  {
    FinalizeInstalls(s, ResolvedBatch(s, step));
  }

  lemma InstallKeepsOutstanding(s: State, t: State, id: BatchId)
    requires RecordsOk(s) && IntentsOutstanding(s) && (Installed(s, t, id) || Forgotten(s, t, id))
    requires !t.integration.Revising?
    ensures IntentsOutstanding(t)
  {
    assert IntentFits(s.batches[id]);
  }

  lemma KeptMeansOutstanding(s: State, o: Outcome)
    requires IntentsOutstanding(s) && PendingKept(s, o)
    ensures o.Some? ==> IntentsOutstanding(o.value)
  {
  }

  lemma OtherStepKeepsOutstanding(s: State, step: Step)
    requires RecordsOk(s) && IntentsOutstanding(s)
    requires !Resolving(step) && !step.SRecordRevision? && !step.SBeginRevision?
    ensures Apply(s, step).Some? ==> IntentsOutstanding(Apply(s, step).value)
  {
    if step.SPrune? { PruneKeepsPending(s, step.cutoff); } else { OtherStepKeepsPending(s, step); }
    KeptMeansOutstanding(s, Apply(s, step));
  }

  lemma BeginOutstanding(s: State, step: Step)
    requires IntentsOutstanding(s) && step.SBeginRevision? && Apply(s, step).Some?
    ensures IntentsOutstanding(Apply(s, step).value) <==> RevisesOutstanding(s, step)
  {
    BeginKeepsBatches(s, step);
  }

  /** Whatever else happens, a batch under revision stays prepared or published exactly when no revision
      begins on another kind of batch. */
  lemma StepKeepsOutstandingExactly(s: State, step: Step)
    requires RecordsOk(s) && IntentsOutstanding(s) && Apply(s, step).Some?
    ensures IntentsOutstanding(Apply(s, step).value) <==> RevisesOutstanding(s, step)
  {
    if Resolving(step) { ResolutionKeepsOutstanding(s, step); }
    else if step.SBeginRevision? { BeginOutstanding(s, step); }
    else if step.SRecordRevision? { RecordKeepsOutstanding(s, step); }
    else { OtherStepKeepsOutstanding(s, step); }
  }

  lemma ResolutionKeepsOutstanding(s: State, step: Step)
    requires RecordsOk(s) && IntentsOutstanding(s) && Resolving(step)
    ensures Apply(s, step).Some? ==> IntentsOutstanding(Apply(s, step).value)
  {
    if Apply(s, step).Some? {
      ResolvingResolves(s, step);
      InstallKeepsOutstanding(s, Apply(s, step).value, ResolvedBatch(s, step));
    }
  }

  ghost predicate RevisesOutstandingRun(states: seq<State>, steps: seq<Step>)
    requires |states| == |steps| + 1
  {
    forall i | 0 <= i < |steps| :: RevisesOutstanding(states[i], steps[i])
  }

  /** Every run in which tasks and batches agree is of this kind. */
  lemma OrderlyRunRevisesOutstanding(serialized: seq<string>, states: seq<State>, steps: seq<Step>)
    requires Run(serialized, states, steps) && OrderlyRun(states, steps)
    ensures RevisesOutstandingRun(states, steps)
  {
    forall i | 0 <= i < |steps| ensures RevisesOutstanding(states[i], steps[i]) {
      RunKeepsCoherent(serialized, states, steps, i);
      CoherentRevisesOutstanding(states[i], steps[i]);
    }
  }

  lemma {:induction false} RunKeepsOutstanding(serialized: seq<string>, states: seq<State>, steps: seq<Step>, k: nat)
    requires Run(serialized, states, steps) && RevisesOutstandingRun(states, steps) && k < |states|
    ensures IntentsOutstanding(states[k])
  {
    if k > 0 {
      RunKeepsOutstanding(serialized, states, steps, k - 1);
      RunKeepsRecords(serialized, states, steps, k - 1);
      StepOf(serialized, states, steps, k - 1);
      StepKeepsOutstandingExactly(states[k - 1], steps[k - 1]);
    }
  }

  // ---- Atomicity ----

  /** Housekeeping selects the record, which it does by looking at statuses, instants and tasks alone. */
  predicate Selects(s: State, step: Step, id: BatchId) {
    step.SPrune? && id in Pruning.PrunedBatches(s.tasks, s.batches, step.cutoff)
  }

  ghost predicate Kept(s: State, t: State, id: BatchId) {
    id in s.batches && id in t.batches && t.batches[id] == s.batches[id]
  }

  ghost predicate KeptOrResolved(s: State, o: Outcome, step: Step, id: BatchId) {
    Pending(s, id) && o.Some? ==> Kept(s, o.value, id) || Resolves(s, o.value, step, id)
  }

  lemma BeginKeepsOthers(s: State, step: Step, id: BatchId)
    requires step.SBeginRevision?
    ensures KeptOrResolved(s, Apply(s, step), step, id)
  {
    BeginKeepsBatches(s, step);
  }

  lemma RecordKeepsOthers(s: State, step: Step, id: BatchId)
    requires step.SRecordRevision?
    ensures KeptOrResolved(s, Apply(s, step), step, id)
  {
    RecordRecords(s, step.token, step.head, step.base, step.receipt, step.policy);
  }

  lemma ResolutionKeepsOthers(s: State, step: Step, id: BatchId)
    requires Resolving(step)
    ensures KeptOrResolved(s, Apply(s, step), step, id)
  {
    if Apply(s, step).Some? { ResolvingResolves(s, step); }
  }

  lemma PruneLoses(s: State, step: Step, id: BatchId)
    requires step.SPrune? && Pending(s, id)
    ensures Apply(s, step).Some?
    ensures if Selects(s, step, id) then id !in Apply(s, step).value.batches else Kept(s, Apply(s, step).value, id)
  {
  }

  lemma OtherStepKeepsOrResolves(s: State, step: Step, id: BatchId)
    requires RecordsOk(s) && !step.SPrune?
    ensures KeptOrResolved(s, Apply(s, step), step, id)
  {
    if Resolving(step) { ResolutionKeepsOthers(s, step, id); }
    else if step.SBeginRevision? { BeginKeepsOthers(s, step, id); }
    else if step.SRecordRevision? { RecordKeepsOthers(s, step, id); }
    else { OtherStepKeepsPending(s, step); }
  }

  ghost predicate KeptResolvedOrLost(s: State, t: State, step: Step, id: BatchId) {
    && (Kept(s, t, id) || Resolves(s, t, step, id) || Selects(s, step, id))
    && (id !in t.batches <==> Selects(s, step, id))
  }

  lemma UnprunedIsNotLost(s: State, o: Outcome, step: Step, id: BatchId)
    requires Pending(s, id) && o.Some? && !step.SPrune? && KeptOrResolved(s, o, step, id)
    ensures KeptResolvedOrLost(s, o.value, step, id)
  {
  }

  /** While a revision is pending a step leaves the record alone, resolves the revision, or is a pruning
      that selects the record; and in the last case, and no other, the revision is lost. */
  lemma PendingStep(s: State, step: Step, id: BatchId)
    requires RecordsOk(s) && Pending(s, id) && Apply(s, step).Some?
    ensures KeptResolvedOrLost(s, Apply(s, step).value, step, id)
  {
    if step.SPrune? {
      PruneLoses(s, step, id);
    } else {
      OtherStepKeepsOrResolves(s, step, id);
      UnprunedIsNotLost(s, Apply(s, step), step, id);
    }
  }

  /** What became of a recorded revision at one step: the batch is the very batch it was before the
      recording, or exactly what finishing without interruption installs; or pruning took the record. */
  ghost predicate Concluded(s: State, t: State, step: Step, id: BatchId, before: Batch, recorded: Batch) {
    if Selects(s, step, id) then id !in t.batches
    else
      && Resolves(s, t, step, id) && id in t.batches
      && ((t.batches[id] == before && t.tasks == s.tasks)
          || (Finalizable(recorded) && t.batches[id] == Finalized(recorded)))
  }

  lemma ChangedIsConcluded(s: State, t: State, step: Step, id: BatchId, before: Batch)
    requires Pending(s, id) && KeptResolvedOrLost(s, t, step, id) && !Kept(s, t, id)
    requires before.revision.None? && s.batches[id] == before.(revision := s.batches[id].revision)
    ensures Concluded(s, t, step, id, before, s.batches[id])
  {
    assert s.batches[id].(revision := None) == before;
  }

  lemma StepConcludes(s: State, step: Step, t: State, id: BatchId, before: Batch)
    requires RecordsOk(s) && Pending(s, id) && Apply(s, step) == Some(t) && !Kept(s, t, id)
    requires before.revision.None? && s.batches[id] == before.(revision := s.batches[id].revision)
    ensures Concluded(s, t, step, id, before, s.batches[id])
  {
    PendingStep(s, step, id);
    ChangedIsConcluded(s, t, step, id, before);
  }

  /** Atomicity, over every run. Step `i` records a revision of a batch. Up to any later state the record
      has either not changed since, or at one step `m` the revision was resolved, back to the very batch
      it was or to exactly what finishing without interruption installs, or a pruning selected it. */
  lemma {:induction false} RevisionIsAtomic(serialized: seq<string>, states: seq<State>, steps: seq<Step>,
                                            i: nat, k: nat, id: BatchId) returns (m: nat)
    requires Run(serialized, states, steps) && i < k < |states|
    requires Recorded(states[i], states[i + 1], id)
    ensures i < m <= k
    ensures forall j | i < j <= m :: id in states[j].batches && states[j].batches[id] == states[i + 1].batches[id]
    ensures m < k ==> Concluded(states[m], states[m + 1], steps[m], id, states[i].batches[id], states[i + 1].batches[id])
  {
    m := i + 1;
    while m < k && Kept(states[m], states[m + 1], id)
      invariant i < m <= k
      invariant forall j | i < j <= m :: id in states[j].batches && states[j].batches[id] == states[i + 1].batches[id]
    {
      m := m + 1;
    }
    if m < k {
      RunKeepsRecords(serialized, states, steps, m);
      StepOf(serialized, states, steps, m);
      StepConcludes(states[m], steps[m], states[m + 1], id, states[i].batches[id]);
    }
  }

  /** Where revisions begin on outstanding batches only, and so in every run in which tasks and batches
      agree, no pruning ever selects a batch with a revision pending. */
  lemma OutstandingRevisionsAreNotPruned(serialized: seq<string>, states: seq<State>, steps: seq<Step>, m: nat, id: BatchId)
    requires Run(serialized, states, steps) && RevisesOutstandingRun(states, steps) && m < |steps|
    requires Pending(states[m], id)
    ensures !Selects(states[m], steps[m], id)
  {
    RunKeepsOutstanding(serialized, states, steps, m);
  }

  /** What is installed: the old candidate joins the history as superseded, and its successor has the
      next number, no evidence and no approval, on a batch with the same tasks and pull request. */
  lemma InstalledRevisionIsFresh(b: Batch)
    requires RecordOk(b) && b.revision.Some?
    ensures Finalizable(b)
    ensures var f, c := Finalized(b), b.candidate.value;
            f.candidate.Some? && f.candidate.value.revision == c.revision + 1
            && f.candidate.value.sha == b.revision.value.candidateSha
            && Pristine(f.candidate.value) && f.revision.None? && f.changeRequest.None?
            && f.history == b.history + [c.(state := Superseded)] && Chained(f)
            && f.status == b.status && f.taskIds == b.taskIds && f.pullRequest == b.pullRequest
  {
    FinalizedOk(b);
  }

  /** In every state of every run the history holds revisions 1 to n-1, superseded, and the candidate is
      revision n. */
  lemma RevisionsAreNumbered(serialized: seq<string>, states: seq<State>, steps: seq<Step>, k: nat, id: BatchId)
    requires Run(serialized, states, steps) && k < |states| && id in states[k].batches
    ensures var b := states[k].batches[id];
            (forall i | 0 <= i < |b.history| :: b.history[i].revision == i + 1 && b.history[i].state == Superseded)
            && (b.candidate.Some? ==> b.candidate.value.revision == |b.history| + 1)
            && (b.candidate.None? ==> b.history == [])
  {
    RunKeepsRecords(serialized, states, steps, k);
    assert Chained(states[k].batches[id]);
  }

  /** Finishing at once after recording succeeds, and installs what the intent describes. */
  lemma UninterruptedRevision(s: State)
    requires RecordsOk(s) && s.integration.Revising? && Pending(s, s.integration.id)
    requires s.batches[s.integration.id].revision.value.taskId in s.tasks && TasksKnown(s, s.batches[s.integration.id].taskIds)
    ensures FinishRevision(s).Some? && Installed(s, FinishRevision(s).value, s.integration.id)
  {
    assert IntentFits(s.batches[s.integration.id]);
    FinalizeInstalls(s, s.integration.id);
  }
}
