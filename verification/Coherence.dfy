/**
 Tasks and batches tell the same story in every state, crashes included: an integrating, batched or
 published task names a batch that lists it and is respectively running, prepared or published, and
 every task such a batch lists agrees. Four transactions change the status of a batch's tasks without
 asking whether the tasks are still that batch's. For each of them the condition under which it
 breaks coherence is exact, and no other step can.
 */
module Coherence {
  import opened Common
  import opened Records
  import opened CandidateLifecycle
  import opened Coordinate
  import opened BatchRecords

  // ---- The invariant ----

  predicate Active(b: Batch) {
    b.status == Running || b.status == Prepared || b.status == BatchPublished
  }

  predicate Engaged(t: Task) {
    t.status == Integrating || t.status == Batched || t.status == Published
  }

  /** What being in a batch of this status means for a task. */
  predicate Agrees(t: Task, b: Batch) {
    match b.status
    case Running => t.status == Integrating || t.status == Cancelled
    case Prepared => t.status == Batched
    case BatchPublished => t.status == Published
    case _ => false
  }

  ghost predicate BatchCoherent(s: State, id: BatchId)
    requires id in s.batches
  {
    Active(s.batches[id]) ==>
      forall t | t in s.batches[id].taskIds ::
        t in s.tasks && s.tasks[t].batchId == Some(id) && Agrees(s.tasks[t], s.batches[id])
  }

  ghost predicate TaskCoherent(s: State, t: TaskId)
    requires t in s.tasks
  {
    Engaged(s.tasks[t]) ==>
      && s.tasks[t].batchId.Some? && s.tasks[t].batchId.value in s.batches
      && t in s.batches[s.tasks[t].batchId.value].taskIds
      && Agrees(s.tasks[t], s.batches[s.tasks[t].batchId.value])
  }

  ghost predicate Coherent(s: State) {
    (forall id | id in s.batches :: BatchCoherent(s, id)) && (forall t | t in s.tasks :: TaskCoherent(s, t))
  }

  /** While a batch is being integrated, none of its tasks names another batch. */
  ghost predicate SessionOk(s: State) {
    s.integration.Building? ==>
      && (s.integration.id in s.batches ==> s.batches[s.integration.id].taskIds == s.integration.mem.taskIds)
      && forall t | t in s.integration.mem.taskIds && t in s.tasks ::
           s.tasks[t].batchId.None? || s.tasks[t].batchId == Some(s.integration.id)
  }

  /** Some active batch other than `id` lists one of these tasks. */
  ghost predicate Listed(s: State, id: BatchId, ids: seq<TaskId>) {
    exists other, t :: other != id && other in s.batches && Active(s.batches[other]) && t in ids
                       && t in s.batches[other].taskIds
  }

  ghost predicate CoherentSession(s: State) {
    Coherent(s) && SessionOk(s)
  }

  lemma ActiveBatchesDisjoint(s: State, a: BatchId, b: BatchId, t: TaskId)
    requires Coherent(s) && a in s.batches && b in s.batches && Active(s.batches[a]) && Active(s.batches[b])
    requires t in s.batches[a].taskIds && t in s.batches[b].taskIds
    ensures a == b
  {
    assert BatchCoherent(s, a) && BatchCoherent(s, b);
  }

  /** An active batch shares no task with another, and so may take its tasks with it. */
  lemma ActiveIsNotListed(s: State, id: BatchId)
    requires Coherent(s) && id in s.batches && Active(s.batches[id])
    ensures !Listed(s, id, s.batches[id].taskIds)
  {
    forall other, t | other != id && other in s.batches && Active(s.batches[other]) && t in s.batches[id].taskIds
      ensures t !in s.batches[other].taskIds
    {
      if t in s.batches[other].taskIds { ActiveBatchesDisjoint(s, id, other, t); }
    }
  }

  lemma BuildingIsNotListed(s: State)
    requires CoherentSession(s) && s.integration.Building?
    ensures !Listed(s, s.integration.id, s.integration.mem.taskIds)
  {
    forall other, t | other != s.integration.id && other in s.batches && Active(s.batches[other])
                      && t in s.integration.mem.taskIds
      ensures t !in s.batches[other].taskIds
    {
      assert BatchCoherent(s, other);
    }
  }

  // ---- Steps that change no status ----

  ghost predicate SameShape(s: State, t: State) {
    && t.batches.Keys == s.batches.Keys && t.tasks.Keys == s.tasks.Keys
    && (forall k | k in s.batches :: t.batches[k].status == s.batches[k].status && t.batches[k].taskIds == s.batches[k].taskIds)
    && (forall k | k in s.tasks :: t.tasks[k].status == s.tasks[k].status && t.tasks[k].batchId == s.tasks[k].batchId)
  }

  lemma SameShapeKeeps(s: State, t: State)
    requires Coherent(s) && SameShape(s, t)
    ensures Coherent(t)
  {
    forall k | k in t.batches ensures BatchCoherent(t, k) { assert BatchCoherent(s, k); }
    forall k | k in t.tasks ensures TaskCoherent(t, k) { assert TaskCoherent(s, k); }
  }

  /** No task comes to name a batch it did not name before. */
  ghost predicate Released(s: State, t: State) {
    forall x | x in t.tasks :: t.tasks[x].batchId.None? || (x in s.tasks && t.tasks[x].batchId == s.tasks[x].batchId)
  }

  lemma SessionKept(s: State, t: State)
    requires SessionOk(s) && Released(s, t)
    requires t.integration.Building? ==>
               s.integration.Building? && t.integration.id == s.integration.id
               && t.integration.mem.taskIds == s.integration.mem.taskIds
    requires t.integration.Building? && t.integration.id in t.batches ==>
               t.batches[t.integration.id].taskIds == t.integration.mem.taskIds
    ensures SessionOk(t)
  {
  }

  // ---- Steps that move one batch and its tasks ----

  /** One batch takes a new status and its tasks an edit that suits it. */
  predicate Suits(e: Edit, before: Option<Batch>, after: Batch) {
    match e
    case ToBatched => before.Some? && before.value.status == Running && after.status == Prepared
    case ToPublished => false
    case ToMerged(at) => after.status == BatchMerged
    case EnterIntegration(batch) => false
    case Recover(batch) => false
    case _ => !Active(after)
  }

  function StoredBatch(s: State, id: BatchId): Option<Batch> {
    if id in s.batches then Some(s.batches[id]) else None
  }

  ghost predicate Moved(s: State, t: State, id: BatchId, e: Edit, b: Batch) {
    && t.batches == s.batches[id := b] && (id in s.batches ==> b.taskIds == s.batches[id].taskIds)
    && t.tasks == EditTasks(s.tasks, b.taskIds, e, s.now) && TasksKnown(s, b.taskIds)
    && Suits(e, StoredBatch(s, id), b)
  }

  lemma MoveReleases(s: State, t: State, id: BatchId, e: Edit, b: Batch)
    requires Moved(s, t, id, e, b)
    ensures Released(s, t)
  {
  }

  lemma MoveKeepsCoherent(s: State, t: State, id: BatchId, e: Edit, b: Batch)
    requires Coherent(s) && Moved(s, t, id, e, b) && !Listed(s, id, b.taskIds)
    ensures Coherent(t)
  {
    forall k | k in t.batches ensures BatchCoherent(t, k) {
      assert k != id ==> BatchCoherent(s, k);
      assert id in s.batches ==> BatchCoherent(s, id);
      if Active(t.batches[k]) {
        forall x | x in t.batches[k].taskIds
          ensures x in t.tasks && t.tasks[x].batchId == Some(k) && Agrees(t.tasks[x], t.batches[k])
        {
          if k != id { assert x !in b.taskIds; }
        }
      }
    }
    forall x | x in t.tasks ensures TaskCoherent(t, x) {
      assert TaskCoherent(s, x);
      if Engaged(t.tasks[x]) && x !in b.taskIds { assert s.tasks[x].batchId != Some(id); }
    }
  }

  /** A close, a completion or a refresh refuses when a task was reassigned, and needs nothing more. */
  lemma NotReassigned(s: State, id: BatchId, ids: seq<TaskId>)
    requires Coherent(s) && TasksKnown(s, ids) && !Reassigned(s, id, ids)
    ensures !Listed(s, id, ids)
  {
    forall other, t | other != id && other in s.batches && Active(s.batches[other]) && t in ids
      ensures t !in s.batches[other].taskIds
    {
      assert BatchCoherent(s, other);
      assert !(s.tasks[t].batchId.Some? && s.tasks[t].batchId.value != id);
    }
  }

  /** The exact effect of a transaction that fails a batch's tasks, or queues them again: coherent when
      no replacement batch has taken one of the tasks, and never otherwise. */
  lemma FailingIsSafeExactlyWhenUnlisted(s: State, t: State, id: BatchId, e: Edit, b: Batch)
    requires Coherent(s) && Moved(s, t, id, e, b) && id in s.batches && (e == ToFailed || e == Requeue)
    ensures Coherent(t) <==> !Listed(s, id, b.taskIds)
  {
    if Listed(s, id, b.taskIds) {
      var other, x :| other != id && other in s.batches && Active(s.batches[other]) && x in b.taskIds
                      && x in s.batches[other].taskIds;
      assert BatchCoherent(s, other);
      assert t.batches[other] == s.batches[other] && !Agrees(t.tasks[x], t.batches[other]);
      assert !BatchCoherent(t, other);
    } else {
      MoveKeepsCoherent(s, t, id, e, b);
    }
  }

  /** Every task of this batch that there is names it. */
  ghost predicate NamesIt(s: State, id: BatchId)
    requires id in s.batches
  {
    forall t | t in s.batches[id].taskIds && t in s.tasks :: s.tasks[t].batchId == Some(id)
  }

  /** And of publication: coherent when every listed task still names the batch, and never otherwise. */
  lemma PublishingIsSafeExactlyWhenNamed(s: State, id: BatchId, url: Option<nat>)
    requires Coherent(s) && PublishBatch(s, id, url).Some?
    ensures Coherent(PublishBatch(s, id, url).value) <==> NamesIt(s, id)
  {
    var t := PublishBatch(s, id, url).value;
    var ids := s.batches[id].taskIds;
    assert t.batches == s.batches[id := t.batches[id]] && t.batches[id].taskIds == ids;
    if Coherent(t) {
      assert BatchCoherent(t, id);
      forall x | x in ids ensures s.tasks[x].batchId == Some(id) { assert t.tasks[x].batchId == s.tasks[x].batchId; }
    }
    if NamesIt(s, id) { NamedPublication(s, t, id); }
  }

  lemma NamedPublication(s: State, t: State, id: BatchId)
    requires Coherent(s) && id in s.batches && NamesIt(s, id) && TasksKnown(s, s.batches[id].taskIds)
    requires id in t.batches && t.batches == s.batches[id := t.batches[id]]
    requires t.batches[id].taskIds == s.batches[id].taskIds && t.batches[id].status == BatchPublished
    requires t.tasks == EditTasks(s.tasks, s.batches[id].taskIds, ToPublished, s.now)
    ensures Coherent(t)
  {
    forall k | k in t.batches ensures BatchCoherent(t, k) {
      if k != id {
        assert BatchCoherent(s, k);
        assert Active(s.batches[k]) ==> forall x | x in s.batches[k].taskIds :: x !in s.batches[id].taskIds;
      }
    }
    forall x | x in t.tasks ensures TaskCoherent(t, x) { assert TaskCoherent(s, x); }
  }

  // ---- Workers ----

  /** What a worker's own operation may do to the status of its task. */
  predicate WorkerMove(before: Task, after: Task) {
    || (after.status == before.status && after.batchId == before.batchId)
    || (before.status == Integrating && after.status == Cancelled && after.batchId == before.batchId)
    || (!Engaged(before) && before.status != Cancelled && !Engaged(after)
        && (after.batchId.None? || after.batchId == before.batchId))
  }

  lemma WorkerKeepsCoherent(s: State, t: State, id: TaskId, task: Task)
    requires Coherent(s) && t.batches == s.batches && t.tasks == s.tasks[id := task]
    requires if id in s.tasks then WorkerMove(s.tasks[id], task) else !Engaged(task) && task.batchId.None?
    ensures Coherent(t) && Released(s, t)
  {
    forall k | k in t.batches ensures BatchCoherent(t, k) { assert BatchCoherent(s, k); }
    forall k | k in t.tasks ensures TaskCoherent(t, k) { assert k in s.tasks ==> TaskCoherent(s, k); }
  }

  ghost predicate WorkerMoved(s: State, o: Outcome, id: TaskId) {
    o.Some? ==>
      id in o.value.tasks && o.value.tasks == s.tasks[id := o.value.tasks[id]] && o.value.batches == s.batches
      && o.value.integration == s.integration
      && if id in s.tasks then WorkerMove(s.tasks[id], o.value.tasks[id])
         else !Engaged(o.value.tasks[id]) && o.value.tasks[id].batchId.None?
  }

  lemma WorkerStepMoves(s: State, step: Step)
    requires WorkerStep(step)
    ensures WorkerMoved(s, Apply(s, step), step.t)
  {
  }

  // ---- Recovery ----

  lemma RecoverBatchCoherent(s: State, id: BatchId)
    requires Coherent(s)
    ensures Coherent(RecoverBatch(s, id)) && Released(s, RecoverBatch(s, id))
  {
    if id in s.batches && s.batches[id].status == Running {
      var t := RecoverBatch(s, id);
      assert BatchCoherent(s, id);
      forall k | k in t.batches ensures BatchCoherent(t, k) {
        assert BatchCoherent(s, k);
        if Active(t.batches[k]) {
          forall x | x in t.batches[k].taskIds
            ensures x in t.tasks && t.tasks[x].batchId == Some(k) && Agrees(t.tasks[x], t.batches[k])
          {
            assert s.tasks[x].batchId == Some(k);
          }
        }
      }
      forall x | x in t.tasks ensures TaskCoherent(t, x) { assert TaskCoherent(s, x); }
    }
  }

  lemma {:induction false} RecoverEachCoherent(s: State, ids: seq<BatchId>)
    requires Coherent(s)
    ensures Coherent(RecoverEach(s, ids)) && Released(s, RecoverEach(s, ids))
    ensures RecoverEach(s, ids).integration == s.integration
    decreases |ids|
  {
    if ids != [] {
      RecoverBatchCoherent(s, ids[0]);
      RecoverEachCoherent(RecoverBatch(s, ids[0]), ids[1..]);
    }
  }

  // ---- Assembly ----

  lemma StartCoherent(s: State, id: BatchId, plan: seq<Task>, branch: nat, sha: Sha, bound: bool, local: bool)
    requires CoherentSession(s)
    ensures var o := StartBatch(s, id, plan, branch, sha, bound, local); o.Some? ==> CoherentSession(o.value)
  {
    var o := StartBatch(s, id, plan, branch, sha, bound, local);
    if o.Some? {
      var t := o.value;
      var b := t.batches[id];
      forall x | x in b.taskIds ensures x in s.tasks && s.tasks[x].status == Submitted {
        var i :| 0 <= i < |plan| && plan[i].id == x;
      }
      forall k | k in t.batches ensures BatchCoherent(t, k) {
        assert k != id ==> BatchCoherent(s, k);
      }
      forall x | x in t.tasks ensures TaskCoherent(t, x) { assert TaskCoherent(s, x); }
      assert BatchCoherent(t, id);
    }
  }

  lemma RecordBranchCoherent(s: State, branch: nat, sha: Sha, p: Policy)
    requires CoherentSession(s)
    ensures var o := RecordBranch(s, branch, sha, p); o.Some? ==> CoherentSession(o.value)
  {
    var o := RecordBranch(s, branch, sha, p);
    if o.Some? {
      SameShapeKeeps(s, o.value);
      SessionKept(s, o.value);
    }
  }

  ghost predicate MemMoved(s: State, o: Outcome, e: Edit) {
    o.Some? ==>
      s.integration.Building? && s.integration.id in o.value.batches
      && (o.value.integration.Free? || (o.value.integration.Building? && o.value.integration.id == s.integration.id
                                        && o.value.integration.mem.taskIds == s.integration.mem.taskIds))
      && var b := o.value.batches[s.integration.id];
         b.taskIds == s.integration.mem.taskIds && Moved(s, o.value, s.integration.id, e, b)
  }

  lemma MemMoveKeeps(s: State, o: Outcome, e: Edit)
    requires CoherentSession(s) && MemMoved(s, o, e)
    ensures o.Some? ==> CoherentSession(o.value)
  {
    if o.Some? {
      BuildingIsNotListed(s);
      MoveKeepsCoherent(s, o.value, s.integration.id, e, o.value.batches[s.integration.id]);
      MoveReleases(s, o.value, s.integration.id, e, o.value.batches[s.integration.id]);
      SessionKept(s, o.value);
    }
  }

  lemma AssemblyCoherent(s: State, step: Step)
    requires CoherentSession(s) && RecordsOk(s) && AssemblyStep(step)
    ensures Apply(s, step).Some? ==> CoherentSession(Apply(s, step).value)
  {
    match step
    case SStart(id, plan, branch, sha, bound, local) => StartCoherent(s, id, plan, branch, sha, bound, local);
    case SRecordBranch(branch, sha, policy) => RecordBranchCoherent(s, branch, sha, policy);
    case SFinishDryRun(sha) => FinishDryRunCoherent(s, sha);
    case SPrepare => PrepareCoherent(s);
    case SFailIntegration(culprit, maxAttempts) => FailIntegrationCoherent(s, culprit, maxAttempts);
  }

  lemma FinishDryRunCoherent(s: State, sha: Sha)
    requires CoherentSession(s) && RecordsOk(s)
    ensures FinishDryRun(s, sha).Some? ==> CoherentSession(FinishDryRun(s, sha).value)
  {
    MemMoveKeeps(s, FinishDryRun(s, sha), ToSubmitted);
  }

  lemma PrepareCoherent(s: State)
    requires CoherentSession(s) && RecordsOk(s)
    ensures PrepareBatch(s).Some? ==> CoherentSession(PrepareBatch(s).value)
  {
    MemMoveKeeps(s, PrepareBatch(s), ToBatched);
  }

  lemma FailIntegrationCoherent(s: State, culprit: Option<TaskId>, maxAttempts: nat)
    requires CoherentSession(s)
    ensures var o := FailIntegration(s, culprit, maxAttempts); o.Some? ==> CoherentSession(o.value)
  {
    MemMoveKeeps(s, FailIntegration(s, culprit, maxAttempts),
                 IntegrationFailed(culprit, if s.integration.Building? then s.integration.dry else false, maxAttempts));
  }

  // ---- Revision ----

  lemma IntegrationCoherent(s: State, step: Step)
    requires CoherentSession(s) && RecordsOk(s) && IntegrationStep(step) && !AssemblyStep(step)
    ensures Apply(s, step).Some? ==> CoherentSession(Apply(s, step).value)
  {
    var o := Apply(s, step);
    if o.Some? {
      if step.SRecoverRunning? {
        RecoverEachCoherent(s, step.ids);
      } else {
        IntegrationSameShape(s, step);
        SameShapeKeeps(s, o.value);
      }
    }
  }

  lemma LockStepShape(s: State, step: Step)
    requires step.STakeIntegration? || step.SDropIntegration? || step.SCheckOutstanding?
    ensures Apply(s, step).Some? ==> SameShape(s, Apply(s, step).value) && !Apply(s, step).value.integration.Building?
  {
  }

  lemma BeginRevisionShape(s: State, id: BatchId, t: TaskId, token: nat, pr: PullRequest)
    ensures var o := BeginRevision(s, id, t, token, pr);
            o.Some? ==> SameShape(s, o.value) && o.value.integration.Revising?
  {
  }

  lemma FinalizeShape(s: State, id: BatchId)
    requires RecordsOk(s)
    ensures var o := FinalizeRevision(s, id);
            o.Some? ==> SameShape(s, o.value) && o.value.integration == s.integration
  {
  }

  ghost predicate SessionEnds(s: State, o: Outcome) {
    o.Some? ==> SameShape(s, o.value) && !o.value.integration.Building?
  }

  lemma FinishRevisionShape(s: State)
    requires RecordsOk(s)
    ensures SessionEnds(s, FinishRevision(s))
  {
    if s.integration.Revising? { FinalizeShape(s, s.integration.id); }
  }

  lemma RecoverRevisionShape(s: State, id: BatchId, branchHead: Sha)
    requires RecordsOk(s)
    ensures SessionEnds(s, RecoverRevision(s, id, branchHead))
  {
    FinalizeShape(s, id);
  }

  lemma IntegrationSameShape(s: State, step: Step)
    requires RecordsOk(s) && IntegrationStep(step) && !AssemblyStep(step) && !step.SRecoverRunning?
    ensures SessionEnds(s, Apply(s, step))
  {
    match step
    case SBeginRevision(id, t, token, pr) => BeginRevisionShape(s, id, t, token, pr);
    case SFinishRevision => FinishRevisionShape(s);
    case SRecoverRevision(id, branchHead) => RecoverRevisionShape(s, id, branchHead);
    case _ => LockStepShape(s, step);
  }

  // ---- Transactions under a batch lock ----

  /** Either no status changed, or one batch and its tasks moved together. */
  ghost predicate Shifts(s: State, o: Outcome, id: BatchId) {
    o.Some? ==>
      o.value.integration == s.integration
      && (SameShape(s, o.value) || exists e :: ShiftsBy(s, o.value, id, e))
  }

  ghost predicate ShiftsBy(s: State, t: State, id: BatchId, e: Edit) {
    !e.ToBatched? && id in s.batches && id in t.batches && Moved(s, t, id, e, t.batches[id])
  }

  lemma ShiftReleases(s: State, o: Outcome, id: BatchId)
    requires SessionOk(s) && Shifts(s, o, id)
    ensures o.Some? ==> SessionOk(o.value)
  {
    if o.Some? {
      if !SameShape(s, o.value) {
        var e :| ShiftsBy(s, o.value, id, e);
        MoveReleases(s, o.value, id, e, o.value.batches[id]);
      }
      SessionKept(s, o.value);
    }
  }

  /** And no other active batch lists one of the tasks. */
  lemma UnlistedShiftKeeps(s: State, o: Outcome, id: BatchId)
    requires Coherent(s) && Shifts(s, o, id) && (id in s.batches ==> !Listed(s, id, s.batches[id].taskIds))
    ensures o.Some? ==> Coherent(o.value)
  {
    if o.Some? {
      if SameShape(s, o.value) {
        SameShapeKeeps(s, o.value);
      } else {
        var e :| ShiftsBy(s, o.value, id, e);
        MoveKeepsCoherent(s, o.value, id, e, o.value.batches[id]);
      }
    }
  }

  /** A transaction that is refused when one of the tasks was reassigned. */
  ghost predicate Guarded(s: State, o: Outcome, id: BatchId) {
    o.Some? ==> id in s.batches && TasksKnown(s, s.batches[id].taskIds) && !Reassigned(s, id, s.batches[id].taskIds)
  }

  lemma CloseShifts(s: State, id: BatchId, changeRequest: bool, revocation: bool, refreshRequired: bool, refreshClose: bool)
    ensures var o := CloseLocked(s, id, changeRequest, revocation, refreshRequired, refreshClose);
            Shifts(s, o, id) && Guarded(s, o, id)
  {
    var o := CloseLocked(s, id, changeRequest, revocation, refreshRequired, refreshClose);
    if o.Some? { assert ShiftsBy(s, o.value, id, Pause); }
  }

  lemma MergeShifts(s: State, id: BatchId, p: Policy, at: Instant)
    ensures var o := MarkMergedLocked(s, id, p, at); Shifts(s, o, id) && Guarded(s, o, id)
  {
    var o := MarkMergedLocked(s, id, p, at);
    if o.Some? { assert ShiftsBy(s, o.value, id, ToMerged(at)); }
  }

  /** Whether a change request is finished on a pull request that is not what it was recorded for. */
  predicate Violates(s: State, id: BatchId, pr: PullRequest) {
    id in s.views && s.views[id].candidate.Some? && pr.state != PullRequestClosed
    && !OpenAtCandidate(pr, s.views[id].candidate.value)
  }

  lemma CompleteChangesShifts(s: State, id: BatchId, pr: PullRequest)
    ensures var o := CompleteChangeRequest(s, id, pr);
            && Shifts(s, o, id)
            && (!Violates(s, id, pr) ==> Still(s, o) || Guarded(s, o, id))
            && (Violates(s, id, pr) && o.Some? ==> ShiftsBy(s, o.value, id, ToFailed))
  {
    var o := CompleteChangeRequest(s, id, pr);
    if o.Some? {
      if pr.state == PullRequestClosed { CloseShifts(s, id, true, true, true, true); }
      else if Violates(s, id, pr) { assert ShiftsBy(s, o.value, id, ToFailed); }
    }
  }

  lemma FinishRefreshShifts(s: State, id: BatchId)
    ensures FinishRefresh(s, id).Some? ==> ShiftsBy(s, FinishRefresh(s, id).value, id, Requeue)
    ensures Shifts(s, FinishRefresh(s, id), id)
  {
    var o := FinishRefresh(s, id);
    if o.Some? { assert ShiftsBy(s, o.value, id, Requeue); }
  }

  lemma SyncShifts(s: State, id: BatchId, cfg: Config, pr: PullRequest, proven: bool, disabled: bool, action: SyncAction)
    ensures var o := SyncBatch(s, id, cfg, pr, proven, disabled, action);
            && Shifts(s, o, id)
            && (action != FailBatch ==> Still(s, o) || Guarded(s, o, id))
            && (action == FailBatch && o.Some? ==> ShiftsBy(s, o.value, id, ToFailed))
  {
    var o := SyncBatch(s, id, cfg, pr, proven, disabled, action);
    if o.Some? {
      match action
      case FailBatch => assert ShiftsBy(s, o.value, id, ToFailed);
      case CloseRejected => CloseShifts(s, id, false, true, true, false);
      case Complete => MergeShifts(s, id, cfg.policy, s.now);
      case _ => QuietSyncShape(s, id, cfg, pr, action);
    }
  }

  lemma ReconcileStill(s: State, id: BatchId, cfg: Config, pr: PullRequest)
    requires Held(s, id)
    ensures var o := CommitSync(s, id, cfg, pr, Reconcile);
            o.Some? ==> SameShape(s, o.value) && o.value.integration == s.integration
  {
    if s.batches[id].candidate.Some? { ReconciledShape(s.batches[id], cfg, pr); }
  }

  lemma QuietSyncShape(s: State, id: BatchId, cfg: Config, pr: PullRequest, action: SyncAction)
    requires Held(s, id) && action != FailBatch && action != CloseRejected && action != Complete
    ensures var o := CommitSync(s, id, cfg, pr, action);
            o.Some? ==> SameShape(s, o.value) && o.value.integration == s.integration
  {
    if action == Reconcile { ReconcileStill(s, id, cfg, pr); }
    else if QueueAction(action) { QueueSyncShape(s, id, cfg, pr, action); }
  }

  predicate QueueAction(action: SyncAction) {
    action == SuspectQueue || action == StopQueue || action == StopUnauthorized || action == MarkStale || action == RecordQueue
  }

  lemma QueueSyncShape(s: State, id: BatchId, cfg: Config, pr: PullRequest, action: SyncAction)
    requires Held(s, id) && QueueAction(action)
    ensures var o := CommitSync(s, id, cfg, pr, action);
            o.Some? ==> SameShape(s, o.value) && o.value.integration == s.integration
  {
  }

  predicate MovingStep(step: Step) {
    step.SCompleteChanges? || step.SSync? || step.SSyncLanded? || step.SClose? || step.SMarkMerged?
    || step.SRejectRefresh? || step.SFinishRefresh?
  }

  ghost predicate Still(s: State, o: Outcome) {
    o.Some? ==> SameShape(s, o.value) && o.value.integration == s.integration
  }

  lemma PublishStepsStill(s: State, step: Step)
    requires step.SPublishUnbound? || step.SPublishFailed? || step.SPublishQueueAttempt? || step.SPublishQueueOutcome?
    ensures Still(s, Apply(s, step))
  {
  }

  lemma VerificationStill(s: State, id: BatchId, name: string, passed: bool, binding: Binding, p: Policy, pr: PullRequest)
    ensures Still(s, RecordVerification(s, id, name, passed, binding, p, pr))
  {
  }

  lemma ApprovalStill(s: State, id: BatchId, binding: Binding, actor: Actor, p: Policy, pr: PullRequest)
    ensures Still(s, ApproveBatch(s, id, binding, actor, p, pr))
  {
  }

  lemma ApprovalQueueStill(s: State, id: BatchId, binding: Binding, enabled: bool)
    ensures Still(s, ApproveQueueAttempt(s, id, binding)) && Still(s, ApproveQueueOutcome(s, id, binding, enabled))
  {
  }

  lemma EvidenceStepsStill(s: State, step: Step)
    requires step.SVerify? || step.SApprove? || step.SApproveUnbound?
    ensures Still(s, Apply(s, step))
  {
    match step
    case SVerify(id, name, passed, binding, policy, pr) => VerificationStill(s, id, name, passed, binding, policy, pr);
    case SApprove(id, binding, actor, policy, pr) => ApprovalStill(s, id, binding, actor, policy, pr);
    case SApproveUnbound(id) => ApproveUnboundStill(s, id);
  }

  lemma ApprovalStepsStill(s: State, step: Step)
    requires step.SVerify? || step.SApprove? || step.SApproveUnbound? || step.SApproveQueueAttempt? || step.SApproveQueueOutcome?
    ensures Still(s, Apply(s, step))
  {
    match step
    case SApproveQueueAttempt(id, binding) => ApprovalQueueStill(s, id, binding, false);
    case SApproveQueueOutcome(id, binding, enabled) => ApprovalQueueStill(s, id, binding, enabled);
    case _ => EvidenceStepsStill(s, step);
  }

  lemma ApproveUnboundStill(s: State, id: BatchId)
    ensures Still(s, ApproveUnbound(s, id))
  {
  }

  lemma ReopenStill(s: State, t: TaskId, id: BatchId, scope: Option<seq<string>>, lease: Lease, p: Policy)
    ensures Still(s, ReopenTask(s, t, id, scope, lease, p))
  {
  }

  lemma RequestStill(s: State, id: BatchId, binding: Binding, pr: PullRequest)
    ensures Still(s, RequestChanges(s, id, binding, pr))
  {
  }

  lemma RecordRevisionStill(s: State, token: nat, head: Sha, base: Sha, receipt: Receipt, p: Policy)
    ensures Still(s, RecordRevision(s, token, head, base, receipt, p))
  {
  }

  lemma RefreshStill(s: State, id: BatchId, target: Sha, nonce: nat)
    ensures Still(s, StartRefresh(s, id, target, nonce)) && Still(s, QuietRefresh(s, id))
  {
  }

  lemma RefreshStepsStill(s: State, step: Step)
    requires step.SStartRefresh? || step.SQuietRefresh?
    ensures Still(s, Apply(s, step))
  {
    match step
    case SStartRefresh(id, target, nonce) => RefreshStill(s, id, target, nonce);
    case SQuietRefresh(id) => RefreshStill(s, id, 0, 0);
  }

  lemma RevisionStepsStill(s: State, step: Step)
    requires step.SRequestChanges? || step.SRecordRevision? || step.SStartRefresh? || step.SQuietRefresh?
    ensures Still(s, Apply(s, step))
  {
    match step
    case SRequestChanges(id, binding, pr) => RequestStill(s, id, binding, pr);
    case SRecordRevision(token, head, base, receipt, policy) => RecordRevisionStill(s, token, head, base, receipt, policy);
    case _ => RefreshStepsStill(s, step);
  }

  lemma StillStepShape(s: State, step: Step)
    requires LockedBatch(s, step).Some? && !MovingStep(step) && !step.SPublish?
    ensures Still(s, Apply(s, step))
  {
    if step.SPublishUnbound? || step.SPublishFailed? || step.SPublishQueueAttempt? || step.SPublishQueueOutcome? {
      PublishStepsStill(s, step);
    } else if step.SRequestChanges? || step.SRecordRevision? || step.SStartRefresh? || step.SQuietRefresh? {
      RevisionStepsStill(s, step);
    } else if step.SReopen? {
      ReopenStill(s, step.t, step.id, step.scope, step.lease, step.policy);
    } else {
      ApprovalStepsStill(s, step);
    }
  }

  lemma CloseStepsShift(s: State, id: BatchId)
    ensures Shifts(s, CloseBatch(s, id), id) && Guarded(s, CloseBatch(s, id), id)
    ensures Shifts(s, RejectRefresh(s, id), id) && Guarded(s, RejectRefresh(s, id), id)
  {
    CloseShifts(s, id, false, false, false, false);
    CloseShifts(s, id, false, true, true, true);
  }

  predicate EndingStep(step: Step) {
    step.SSyncLanded? || step.SClose? || step.SMarkMerged? || step.SRejectRefresh?
  }

  lemma EndingStepShifts(s: State, step: Step)
    requires EndingStep(step)
    ensures Shifts(s, Apply(s, step), step.id) && Guarded(s, Apply(s, step), step.id)
  {
    match step
    case SSyncLanded(id, policy) => MergeShifts(s, id, policy, s.now);
    case SClose(id) => CloseStepsShift(s, id);
    case SMarkMerged(id, policy, at) => MergeShifts(s, id, policy, at);
    case SRejectRefresh(id) => CloseStepsShift(s, id);
  }

  /** The transactions that change the status of listed tasks without asking whose they are. */
  predicate Unguarded(s: State, step: Step) {
    || step.SFinishRefresh?
    || (step.SSync? && step.action == FailBatch)
    || (step.SCompleteChanges? && Violates(s, step.id, step.pr))
  }

  lemma MovingStepShifts(s: State, step: Step)
    requires MovingStep(step)
    ensures Shifts(s, Apply(s, step), step.id)
    ensures !Unguarded(s, step) ==> Still(s, Apply(s, step)) || Guarded(s, Apply(s, step), step.id)
    ensures Unguarded(s, step) && Apply(s, step).Some? ==>
              exists e :: (e == ToFailed || e == Requeue) && ShiftsBy(s, Apply(s, step).value, step.id, e)
  {
    if EndingStep(step) { EndingStepShifts(s, step); }
    else {
      match step
      case SCompleteChanges(id, pr) => CompleteChangesShifts(s, id, pr);
      case SSync(id, config, pr, proven, disabled, action) => SyncShifts(s, id, config, pr, proven, disabled, action);
      case SFinishRefresh(id) => FinishRefreshShifts(s, id);
    }
  }

  // ---- Housekeeping ----

  lemma PruneCoherent(s: State, cutoff: Instant)
    requires Coherent(s)
    ensures Prune(s, cutoff).Some? && Coherent(Prune(s, cutoff).value) && Released(s, Prune(s, cutoff).value)
  {
    var t := Prune(s, cutoff).value;
    forall k | k in t.batches ensures BatchCoherent(t, k) { assert BatchCoherent(s, k); }
    forall x | x in t.tasks ensures TaskCoherent(t, x) { assert TaskCoherent(s, x); }
  }

  lemma HousekeepingCoherent(s: State, step: Step)
    requires CoherentSession(s) && HousekeepingStep(step)
    ensures Apply(s, step).Some? ==> CoherentSession(Apply(s, step).value)
  {
    if step.SPrune? {
      PruneCoherent(s, step.cutoff);
      SessionKept(s, Prune(s, step.cutoff).value);
    } else if Apply(s, step).Some? {
      SameShapeKeeps(s, Apply(s, step).value);
    }
  }

  // ---- Every step, every run ----

  /** What a step must find for coherence to survive it; three kinds of transaction ask for anything. */
  ghost predicate Orderly(s: State, step: Step) {
    && (step.SPublish? && step.id in s.batches ==> NamesIt(s, step.id))
    && (Unguarded(s, step) && step.id in s.batches ==> !Listed(s, step.id, s.batches[step.id].taskIds))
  }

  /** A batch that is still prepared or published gives them what they need. */
  lemma OutstandingIsOrderly(s: State, step: Step)
    requires Coherent(s) && (step.SPublish? || Unguarded(s, step))
    requires step.id in s.batches ==> Outstanding(s.batches[step.id])
    ensures Orderly(s, step)
  {
    if step.id in s.batches {
      assert BatchCoherent(s, step.id);
      ActiveIsNotListed(s, step.id);
    }
  }

  ghost predicate Good(s: State) {
    RecordsOk(s) && CoherentSession(s)
  }

  lemma WorkerCoherent(s: State, step: Step)
    requires CoherentSession(s) && WorkerStep(step)
    ensures Apply(s, step).Some? ==> CoherentSession(Apply(s, step).value)
  {
    WorkerStepMoves(s, step);
    var o := Apply(s, step);
    if o.Some? {
      WorkerKeepsCoherent(s, o.value, step.t, o.value.tasks[step.t]);
      SessionKept(s, o.value);
    }
  }

  lemma PublishSession(s: State, id: BatchId, url: Option<nat>)
    requires SessionOk(s)
    ensures PublishBatch(s, id, url).Some? ==> SessionOk(PublishBatch(s, id, url).value)
  {
    if PublishBatch(s, id, url).Some? { SessionKept(s, PublishBatch(s, id, url).value); }
  }

  lemma GuardedCoherent(s: State, o: Outcome, id: BatchId)
    requires Coherent(s) && Shifts(s, o, id) && (Still(s, o) || Guarded(s, o, id))
    ensures o.Some? ==> Coherent(o.value)
  {
    if o.Some? {
      if Still(s, o) { SameShapeKeeps(s, o.value); }
      else {
        NotReassigned(s, id, s.batches[id].taskIds);
        UnlistedShiftKeeps(s, o, id);
      }
    }
  }

  lemma UnguardedCoherent(s: State, o: Outcome, id: BatchId, e: Edit)
    requires CoherentSession(s) && Shifts(s, o, id) && o.Some? && (e == ToFailed || e == Requeue) && ShiftsBy(s, o.value, id, e)
    ensures SessionOk(o.value) && (Coherent(o.value) <==> !Listed(s, id, s.batches[id].taskIds))
  {
    ShiftReleases(s, o, id);
    FailingIsSafeExactlyWhenUnlisted(s, o.value, id, e, o.value.batches[id]);
  }

  lemma MovingCoherent(s: State, step: Step)
    requires CoherentSession(s) && MovingStep(step) && Apply(s, step).Some?
    ensures SessionOk(Apply(s, step).value) && (Coherent(Apply(s, step).value) <==> Orderly(s, step))
  {
    var o := Apply(s, step);
    MovingStepShifts(s, step);
    if Unguarded(s, step) {
      var e :| (e == ToFailed || e == Requeue) && ShiftsBy(s, o.value, step.id, e);
      UnguardedCoherent(s, o, step.id, e);
    } else {
      ShiftReleases(s, o, step.id);
      GuardedCoherent(s, o, step.id);
    }
  }

  lemma StillCoherent(s: State, o: Outcome)
    requires CoherentSession(s) && Still(s, o)
    ensures o.Some? ==> CoherentSession(o.value)
  {
    if o.Some? {
      SameShapeKeeps(s, o.value);
      SessionKept(s, o.value);
    }
  }

  lemma PublishCoherent(s: State, id: BatchId, url: Option<nat>)
    requires CoherentSession(s) && PublishBatch(s, id, url).Some?
    ensures SessionOk(PublishBatch(s, id, url).value) && (Coherent(PublishBatch(s, id, url).value) <==> NamesIt(s, id))
  {
    PublishSession(s, id, url);
    PublishingIsSafeExactlyWhenNamed(s, id, url);
  }

  /** A transaction under a batch lock keeps coherence exactly when it is orderly. */
  lemma LockedCoherent(s: State, step: Step)
    requires CoherentSession(s) && LockedBatch(s, step).Some? && Apply(s, step).Some?
    ensures SessionOk(Apply(s, step).value) && (Coherent(Apply(s, step).value) <==> Orderly(s, step))
  {
    if step.SPublish? {
      PublishCoherent(s, step.id, step.url);
    } else if MovingStep(step) {
      MovingCoherent(s, step);
    } else {
      StillStepShape(s, step);
      StillCoherent(s, Apply(s, step));
    }
  }

  predicate Unlocked(step: Step) {
    WorkerStep(step) || IntegrationStep(step) || HousekeepingStep(step)
  }

  lemma UnlockedIsOrderly(s: State, step: Step)
    requires Unlocked(step)
    ensures Orderly(s, step)
  {
  }

  lemma RecordingIsLocked(s: State, step: Step)
    requires step.SRecordRevision? && Apply(s, step).Some?
    ensures LockedBatch(s, step).Some?
  {
  }

  lemma UnlockedCoherent(s: State, step: Step)
    requires Good(s) && Unlocked(step)
    ensures Apply(s, step).Some? ==> CoherentSession(Apply(s, step).value)
  {
    if WorkerStep(step) { WorkerCoherent(s, step); }
    else if AssemblyStep(step) { AssemblyCoherent(s, step); }
    else if IntegrationStep(step) { IntegrationCoherent(s, step); }
    else { HousekeepingCoherent(s, step); }
  }

  /** No step but an unguarded transaction can break coherence, and each of those does so exactly when
      a task it writes is no longer its batch's. */
  lemma StepKeepsCoherentExactly(s: State, step: Step)
    requires Good(s) && Apply(s, step).Some?
    ensures RecordsOk(Apply(s, step).value) && SessionOk(Apply(s, step).value)
    ensures Coherent(Apply(s, step).value) <==> Orderly(s, step)
  {
    StepKeepsRecords(s, step);
    if Unlocked(step) {
      UnlockedCoherent(s, step);
      UnlockedIsOrderly(s, step);
    } else {
      if step.SRecordRevision? { RecordingIsLocked(s, step); }
      LockedCoherent(s, step);
    }
  }

  ghost predicate OrderlyRun(states: seq<State>, steps: seq<Step>)
    requires |states| == |steps| + 1
  {
    forall i | 0 <= i < |steps| :: Orderly(states[i], steps[i])
  }

  /** In every orderly run, crashes and races included, tasks and batches agree in every state. */
  lemma {:induction false} RunKeepsCoherent(serialized: seq<string>, states: seq<State>, steps: seq<Step>, k: nat)
    requires Run(serialized, states, steps) && k < |states| && forall i | 0 <= i < k :: Orderly(states[i], steps[i])
    ensures Good(states[k])
  {
    if k > 0 {
      RunKeepsCoherent(serialized, states, steps, k - 1);
      StepOf(serialized, states, steps, k - 1);
      StepKeepsCoherentExactly(states[k - 1], steps[k - 1]);
    }
  }

  lemma {:induction false} CoherentRunsHaveSessions(serialized: seq<string>, states: seq<State>, steps: seq<Step>, k: nat)
    requires Run(serialized, states, steps) && k < |states| && forall i | 0 <= i <= k :: Coherent(states[i])
    ensures Good(states[k])
  {
    if k > 0 {
      CoherentRunsHaveSessions(serialized, states, steps, k - 1);
      StepOf(serialized, states, steps, k - 1);
      StepKeepsCoherentExactly(states[k - 1], steps[k - 1]);
    }
  }

  /** And in no other: a run is coherent throughout exactly when each of its steps was orderly. */
  lemma RunIsCoherentExactly(serialized: seq<string>, states: seq<State>, steps: seq<Step>)
    requires Run(serialized, states, steps)
    ensures (forall k | 0 <= k < |states| :: Coherent(states[k])) <==> OrderlyRun(states, steps)
  {
    if OrderlyRun(states, steps) {
      forall k | 0 <= k < |states| ensures Coherent(states[k]) { RunKeepsCoherent(serialized, states, steps, k); }
    }
    if forall k | 0 <= k < |states| :: Coherent(states[k]) {
      forall i | 0 <= i < |steps| ensures Orderly(states[i], steps[i]) {
        CoherentRunsHaveSessions(serialized, states, steps, i);
        StepOf(serialized, states, steps, i);
        StepKeepsCoherentExactly(states[i], steps[i]);
        assert Coherent(states[i + 1]);
      }
    }
  }

  /** The property in the words of the documentation. */
  lemma TaskStatusMeansBatchStatus(serialized: seq<string>, states: seq<State>, steps: seq<Step>, k: nat, t: TaskId)
    requires Run(serialized, states, steps) && OrderlyRun(states, steps) && k < |states| && t in states[k].tasks
    ensures var s, task := states[k], states[k].tasks[t];
            Engaged(task) ==>
              task.batchId.Some? && task.batchId.value in s.batches && t in s.batches[task.batchId.value].taskIds
              && (task.status == Integrating ==> s.batches[task.batchId.value].status == Running)
              && (task.status == Batched ==> s.batches[task.batchId.value].status == Prepared)
              && (task.status == Published ==> s.batches[task.batchId.value].status == BatchPublished)
  {
    RunKeepsCoherent(serialized, states, steps, k);
    assert TaskCoherent(states[k], t);
  }

  lemma BatchStatusMeansTaskStatus(serialized: seq<string>, states: seq<State>, steps: seq<Step>, k: nat, id: BatchId, t: TaskId)
    requires Run(serialized, states, steps) && OrderlyRun(states, steps) && k < |states| && id in states[k].batches
    requires t in states[k].batches[id].taskIds
    ensures var s, b := states[k], states[k].batches[id];
            Outstanding(b) ==>
              t in s.tasks && s.tasks[t].batchId == Some(id)
              && s.tasks[t].status == if b.status == Prepared then Batched else Published
    ensures Active(states[k].batches[id]) ==>
              forall other | other in states[k].batches && other != id && Active(states[k].batches[other]) ::
                t !in states[k].batches[other].taskIds
  {
    RunKeepsCoherent(serialized, states, steps, k);
    var s := states[k];
    assert BatchCoherent(s, id);
    if Active(s.batches[id]) {
      forall other | other in s.batches && other != id && Active(s.batches[other]) ensures t !in s.batches[other].taskIds {
        if t in s.batches[other].taskIds { ActiveBatchesDisjoint(s, id, other, t); }
      }
    }
  }

  // ---- At most one outstanding batch ----

  ghost predicate AtMostOne(s: State) {
    forall a, b | a in s.batches && b in s.batches && Outstanding(s.batches[a]) && Outstanding(s.batches[b]) :: a == b
  }

  ghost predicate OthersOutstanding(s: State, id: BatchId) {
    exists k :: k in s.batches && k != id && Outstanding(s.batches[k])
  }

  /** What preparation and publication must find for theirs to be the one outstanding batch. */
  ghost predicate Lone(s: State, step: Step) {
    && (step.SPublish? ==> !OthersOutstanding(s, step.id))
    && (step.SPrepare? && s.integration.Building? ==> !OthersOutstanding(s, s.integration.id))
  }

  ghost predicate NoNewlyOutstanding(s: State, t: State) {
    forall k | k in t.batches && Outstanding(t.batches[k]) :: k in s.batches && Outstanding(s.batches[k])
  }

  ghost predicate Quiet(s: State, o: Outcome) {
    o.Some? ==> NoNewlyOutstanding(s, o.value)
  }

  /** A step that makes one batch outstanding, or leaves it so, and changes no other. */
  lemma OneMadeOutstanding(s: State, t: State, id: BatchId)
    requires AtMostOne(s) && id in t.batches && t.batches == s.batches[id := t.batches[id]] && Outstanding(t.batches[id])
    ensures AtMostOne(t) <==> !OthersOutstanding(s, id)
  {
    if k :| k in s.batches && k != id && Outstanding(s.batches[k]) {
      assert k in t.batches && t.batches[k] == s.batches[k];
    }
  }

  lemma {:induction false} RecoveryOutstanding(s: State, ids: seq<BatchId>)
    ensures NoNewlyOutstanding(s, RecoverEach(s, ids)) && RecoverEach(s, ids).integration == s.integration
    decreases |ids|
  {
    if ids != [] { RecoveryOutstanding(RecoverBatch(s, ids[0]), ids[1..]); }
  }

  lemma StartQuiet(s: State, id: BatchId, plan: seq<Task>, branch: nat, sha: Sha, bound: bool, local: bool)
    ensures Quiet(s, StartBatch(s, id, plan, branch, sha, bound, local))
  {
  }

  lemma MemQuiet(s: State, branch: nat, sha: Sha, p: Policy)
    ensures Quiet(s, RecordBranch(s, branch, sha, p)) && Quiet(s, FinishDryRun(s, sha))
  {
  }

  lemma FailQuiet(s: State, culprit: Option<TaskId>, maxAttempts: nat)
    ensures Quiet(s, FailIntegration(s, culprit, maxAttempts))
  {
  }

  lemma AssemblyQuiet(s: State, step: Step)
    requires AssemblyStep(step) && !step.SPrepare?
    ensures Quiet(s, Apply(s, step))
  {
    match step
    case SStart(id, plan, branch, sha, bound, local) => StartQuiet(s, id, plan, branch, sha, bound, local);
    case SRecordBranch(branch, sha, policy) => MemQuiet(s, branch, sha, policy);
    case SFinishDryRun(sha) => MemQuiet(s, 0, sha, Policy(false, 0, [], [], []));
    case SFailIntegration(culprit, maxAttempts) => FailQuiet(s, culprit, maxAttempts);
  }

  lemma ShapeIsQuiet(s: State, o: Outcome)
    requires SessionEnds(s, o) || Still(s, o)
    ensures Quiet(s, o)
  {
  }

  lemma RecoverRunningQuiet(s: State, ids: seq<BatchId>)
    ensures Quiet(s, RecoverRunning(s, ids))
  {
    RecoveryOutstanding(s, ids);
  }

  lemma IntegrationQuiet(s: State, step: Step)
    requires RecordsOk(s) && IntegrationStep(step) && !step.SPrepare?
    ensures Quiet(s, Apply(s, step))
  {
    if AssemblyStep(step) { AssemblyQuiet(s, step); }
    else if step.SRecoverRunning? { RecoverRunningQuiet(s, step.ids); }
    else {
      IntegrationSameShape(s, step);
      ShapeIsQuiet(s, Apply(s, step));
    }
  }

  lemma WorkerQuiet(s: State, step: Step)
    requires WorkerStep(step)
    ensures Quiet(s, Apply(s, step))
  {
    WorkerStepMoves(s, step);
  }

  lemma HousekeepingQuiet(s: State, step: Step)
    requires HousekeepingStep(step)
    ensures Quiet(s, Apply(s, step))
  {
  }

  lemma ShiftIsQuiet(s: State, o: Outcome, id: BatchId)
    requires Shifts(s, o, id)
    ensures Quiet(s, o)
  {
    if o.Some? && !SameShape(s, o.value) {
      var e :| ShiftsBy(s, o.value, id, e);
    }
  }

  lemma LockedQuiet(s: State, step: Step)
    requires LockedBatch(s, step).Some? && !step.SPublish?
    ensures Quiet(s, Apply(s, step))
  {
    if MovingStep(step) {
      MovingStepShifts(s, step);
      ShiftIsQuiet(s, Apply(s, step), step.id);
    } else {
      StillStepShape(s, step);
      ShapeIsQuiet(s, Apply(s, step));
    }
  }

  /** No step but these two makes a batch outstanding. */
  lemma OthersAreQuiet(s: State, step: Step)
    requires RecordsOk(s) && !step.SPublish? && !step.SPrepare?
    ensures Quiet(s, Apply(s, step))
  {
    if WorkerStep(step) { WorkerQuiet(s, step); }
    else if IntegrationStep(step) { IntegrationQuiet(s, step); }
    else if HousekeepingStep(step) { HousekeepingQuiet(s, step); }
    else if LockedBatch(s, step).Some? { LockedQuiet(s, step); }
  }

  lemma PreparesOne(s: State)
    requires AtMostOne(s) && PrepareBatch(s).Some?
    ensures s.integration.Building? && (AtMostOne(PrepareBatch(s).value) <==> !OthersOutstanding(s, s.integration.id))
  {
    OneMadeOutstanding(s, PrepareBatch(s).value, s.integration.id);
  }

  lemma PublishesOne(s: State, id: BatchId, url: Option<nat>)
    requires AtMostOne(s) && PublishBatch(s, id, url).Some?
    ensures AtMostOne(PublishBatch(s, id, url).value) <==> !OthersOutstanding(s, id)
  {
    OneMadeOutstanding(s, PublishBatch(s, id, url).value, id);
  }

  /** A second batch becomes outstanding exactly when one is prepared or published while another is. */
  lemma StepKeepsAtMostOneExactly(s: State, step: Step)
    requires RecordsOk(s) && AtMostOne(s) && Apply(s, step).Some?
    ensures AtMostOne(Apply(s, step).value) <==> Lone(s, step)
  {
    if step.SPublish? { PublishesOne(s, step.id, step.url); }
    else if step.SPrepare? { PreparesOne(s); }
    else { OthersAreQuiet(s, step); }
  }

  lemma {:induction false} LoneRunHasAtMostOne(serialized: seq<string>, states: seq<State>, steps: seq<Step>, k: nat)
    requires Run(serialized, states, steps) && k < |states| && forall i | 0 <= i < k :: Lone(states[i], steps[i])
    ensures AtMostOne(states[k])
  {
    if k > 0 {
      LoneRunHasAtMostOne(serialized, states, steps, k - 1);
      RunKeepsRecords(serialized, states, steps, k - 1);
      StepOf(serialized, states, steps, k - 1);
      StepKeepsAtMostOneExactly(states[k - 1], steps[k - 1]);
    }
  }

  /** In every run, forced or not, at most one batch is prepared or published in every state exactly when
      each preparation and each publication found no other. */
  lemma RunHasAtMostOneExactly(serialized: seq<string>, states: seq<State>, steps: seq<Step>)
    requires Run(serialized, states, steps)
    ensures (forall k | 0 <= k < |states| :: AtMostOne(states[k])) <==> (forall i | 0 <= i < |steps| :: Lone(states[i], steps[i]))
  {
    if forall i | 0 <= i < |steps| :: Lone(states[i], steps[i]) {
      forall k | 0 <= k < |states| ensures AtMostOne(states[k]) { LoneRunHasAtMostOne(serialized, states, steps, k); }
    }
    if forall k | 0 <= k < |states| :: AtMostOne(states[k]) {
      forall i | 0 <= i < |steps| ensures Lone(states[i], steps[i]) {
        RunKeepsRecords(serialized, states, steps, i);
        StepOf(serialized, states, steps, i);
        StepKeepsAtMostOneExactly(states[i], steps[i]);
        assert AtMostOne(states[i + 1]);
      }
    }
  }

  // ---- What the check before an integration contributes ----

  predicate AnyOutstanding(s: State) {
    exists id | id in s.batches :: Outstanding(s.batches[id])
  }

  /** Nothing is outstanding between an unforced check and the preparation that relies on it. */
  ghost predicate CheckHolds(s: State) {
    && (s.integration.Cleared? || s.integration.Building? ==> !s.integration.force)
    && (s.integration.Cleared? && !s.integration.dry ==> !AnyOutstanding(s))
    && (s.integration.Building? && !s.integration.dry && s.integration.mem.status == Running ==> !AnyOutstanding(s))
  }

  predicate Unforced(step: Step) {
    step.SCheckOutstanding? ==> !step.force
  }

  /** Nothing is outstanding, and no integration under way has relied on that. */
  predicate NoneAwaited(s: State) {
    && !AnyOutstanding(s)
    && (s.integration.Cleared? ==> s.integration.dry)
    && (s.integration.Building? && s.integration.mem.status == Running ==> s.integration.dry)
  }

  /** What is published is outstanding already, or nothing is that it could come between. */
  predicate Sole(s: State, step: Step) {
    step.SPublish? && step.id in s.batches ==> Outstanding(s.batches[step.id]) || NoneAwaited(s)
  }

  lemma QuietKeepsCheck(s: State, t: State)
    requires CheckHolds(s) && NoNewlyOutstanding(s, t)
    requires t.integration == s.integration || t.integration.Free? || t.integration.Recovering? || t.integration.Revising?
    ensures CheckHolds(t)
  {
  }

  lemma CheckSucceeds(s: State, dry: bool)
    ensures CheckOutstanding(s, false, dry).Some? ==> CheckHolds(CheckOutstanding(s, false, dry).value)
  {
  }

  lemma StartKeepsCheck(s: State, id: BatchId, plan: seq<Task>, branch: nat, sha: Sha, bound: bool, local: bool)
    requires CheckHolds(s)
    ensures var o := StartBatch(s, id, plan, branch, sha, bound, local); o.Some? ==> CheckHolds(o.value)
  {
  }

  lemma MemKeepsCheck(s: State, branch: nat, sha: Sha, p: Policy)
    requires CheckHolds(s)
    ensures RecordBranch(s, branch, sha, p).Some? ==> CheckHolds(RecordBranch(s, branch, sha, p).value)
    ensures FinishDryRun(s, sha).Some? ==> CheckHolds(FinishDryRun(s, sha).value)
  {
  }

  /** The step that makes a batch outstanding after an unforced check finds none before it. */
  lemma PrepareFindsNone(s: State)
    requires CheckHolds(s) && RecordsOk(s) && PrepareBatch(s).Some?
    ensures forall k | k in s.batches :: !Outstanding(s.batches[k])
    ensures CheckHolds(PrepareBatch(s).value)
  {
  }

  lemma FailKeepsCheck(s: State, culprit: Option<TaskId>, maxAttempts: nat)
    requires CheckHolds(s)
    ensures var o := FailIntegration(s, culprit, maxAttempts); o.Some? ==> CheckHolds(o.value)
  {
  }

  lemma MemStepKeepsCheck(s: State, step: Step)
    requires CheckHolds(s) && (step.SRecordBranch? || step.SFinishDryRun?) && Apply(s, step).Some?
    ensures CheckHolds(Apply(s, step).value)
  {
    match step
    case SRecordBranch(branch, sha, policy) => MemKeepsCheck(s, branch, sha, policy);
    case SFinishDryRun(sha) => MemKeepsCheck(s, 0, sha, Policy(false, 0, [], [], []));
  }

  lemma AssemblyKeepsCheck(s: State, step: Step)
    requires CheckHolds(s) && RecordsOk(s) && AssemblyStep(step) && Apply(s, step).Some?
    ensures CheckHolds(Apply(s, step).value)
  {
    match step
    case SStart(id, plan, branch, sha, bound, local) => StartKeepsCheck(s, id, plan, branch, sha, bound, local);
    case SPrepare => PrepareFindsNone(s);
    case SFailIntegration(culprit, maxAttempts) => FailKeepsCheck(s, culprit, maxAttempts);
    case _ => MemStepKeepsCheck(s, step);
  }

  lemma RecoverRunningIntegration(s: State, ids: seq<BatchId>)
    ensures RecoverRunning(s, ids).Some? ==> RecoverRunning(s, ids).value.integration == s.integration
  {
    RecoveryOutstanding(s, ids);
  }

  lemma IntegrationKeepsCheck(s: State, step: Step)
    requires CheckHolds(s) && RecordsOk(s) && Apply(s, step).Some?
    requires IntegrationStep(step) && !AssemblyStep(step) && !step.SCheckOutstanding?
    ensures CheckHolds(Apply(s, step).value)
  {
    IntegrationQuiet(s, step);
    if step.SRecoverRunning? { RecoverRunningIntegration(s, step.ids); } else { IntegrationAfter(s, step); }
    QuietKeepsCheck(s, Apply(s, step).value);
  }

  lemma IntegrationAfter(s: State, step: Step)
    requires IntegrationStep(step) && !AssemblyStep(step) && !step.SCheckOutstanding? && !step.SRecoverRunning?
    ensures Apply(s, step).Some? ==>
              var t := Apply(s, step).value;
              t.integration == s.integration || t.integration.Free? || t.integration.Recovering? || t.integration.Revising?
  {
  }

  lemma OtherIntegrations(s: State, step: Step)
    requires Apply(s, step).Some? && (WorkerStep(step) || HousekeepingStep(step))
    ensures Apply(s, step).value.integration == s.integration || Apply(s, step).value.integration.Free?
  {
    if WorkerStep(step) { WorkerStepMoves(s, step); }
  }

  lemma LockedIntegration(s: State, step: Step)
    requires RecordsOk(s) && LockedBatch(s, step).Some?
    ensures Apply(s, step).Some? ==> Apply(s, step).value.integration == s.integration
  {
    LockedStepWrites(s, step);
  }

  lemma PublishKeepsCheck(s: State, id: BatchId, url: Option<nat>)
    requires CheckHolds(s) && PublishBatch(s, id, url).Some? && (Outstanding(s.batches[id]) || NoneAwaited(s))
    ensures CheckHolds(PublishBatch(s, id, url).value)
  {
    var t := PublishBatch(s, id, url).value;
    assert t.batches == s.batches[id := t.batches[id]] && t.integration == s.integration;
    if Outstanding(s.batches[id]) { QuietKeepsCheck(s, t); }
  }

  lemma StepKeepsCheck(s: State, step: Step)
    requires CheckHolds(s) && RecordsOk(s) && Unforced(step) && Sole(s, step) && Apply(s, step).Some?
    ensures CheckHolds(Apply(s, step).value)
  {
    if step.SPublish? { PublishKeepsCheck(s, step.id, step.url); }
    else if AssemblyStep(step) { AssemblyKeepsCheck(s, step); }
    else if step.SCheckOutstanding? { CheckSucceeds(s, step.dry); }
    else if IntegrationStep(step) { IntegrationKeepsCheck(s, step); }
    else {
      OthersAreQuiet(s, step);
      if WorkerStep(step) || HousekeepingStep(step) { OtherIntegrations(s, step); }
      else {
        if step.SRecordRevision? { RecordingIsLocked(s, step); }
        LockedIntegration(s, step);
      }
      QuietKeepsCheck(s, Apply(s, step).value);
    }
  }

  lemma {:induction false} RunKeepsCheck(serialized: seq<string>, states: seq<State>, steps: seq<Step>, k: nat)
    requires Run(serialized, states, steps) && k < |states|
    requires forall i | 0 <= i < k :: Unforced(steps[i]) && Sole(states[i], steps[i])
    ensures CheckHolds(states[k])
  {
    if k > 0 {
      RunKeepsCheck(serialized, states, steps, k - 1);
      RunKeepsRecords(serialized, states, steps, k - 1);
      StepOf(serialized, states, steps, k - 1);
      StepKeepsCheck(states[k - 1], steps[k - 1]);
    }
  }

  lemma SoleIsLone(s: State, step: Step)
    requires CheckHolds(s) && RecordsOk(s) && AtMostOne(s) && Sole(s, step) && Apply(s, step).Some?
    ensures Lone(s, step)
  {
    if step.SPrepare? { PrepareFindsNone(s); }
    if step.SPublish? { assert PublishBatch(s, step.id, step.url).Some?; }
  }

  lemma SoleStepIsLone(serialized: seq<string>, states: seq<State>, steps: seq<Step>, i: nat)
    requires Run(serialized, states, steps) && i < |steps| && AtMostOne(states[i])
    requires forall j | 0 <= j <= i :: Unforced(steps[j]) && Sole(states[j], steps[j])
    ensures Lone(states[i], steps[i])
  {
    RunKeepsCheck(serialized, states, steps, i);
    RunKeepsRecords(serialized, states, steps, i);
    StepOf(serialized, states, steps, i);
    SoleIsLone(states[i], steps[i]);
  }

  /** A sufficient condition: nothing is forced, and no batch that is no longer outstanding is published
      while another is outstanding or about to be prepared. */
  lemma {:induction false} RunKeepsOneOutstanding(serialized: seq<string>, states: seq<State>, steps: seq<Step>, k: nat)
    requires Run(serialized, states, steps) && k < |states|
    requires forall i | 0 <= i < k :: Unforced(steps[i]) && Sole(states[i], steps[i])
    ensures AtMostOne(states[k])
    ensures forall i | 0 <= i < k :: Lone(states[i], steps[i])
  {
    if k > 0 {
      RunKeepsOneOutstanding(serialized, states, steps, k - 1);
      SoleStepIsLone(serialized, states, steps, k - 1);
    }
    LoneRunHasAtMostOne(serialized, states, steps, k);
  }
}
