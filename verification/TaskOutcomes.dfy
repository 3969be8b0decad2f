/**
 What becomes of each task of a batch when the batch ends one way or another, on the tasks' own fields:
 who fails, who is queued again, who is merged, and that nobody else is touched.
 */
module TaskOutcomes {
  import opened Common
  import opened Records
  import opened CandidateLifecycle
  import opened Coordinate
  import opened BatchRecords
  import LeaseExclusion

  /** No task appears or disappears, and those that are not listed are as they were. */
  ghost predicate OthersUntouched(s: State, t: State, ids: seq<TaskId>) {
    t.tasks.Keys == s.tasks.Keys && forall k | k in s.tasks && k !in ids :: t.tasks[k] == s.tasks[k]
  }

  /** What a worker declared and submitted. */
  ghost predicate SameWork(u: Task, v: Task) {
    && v.id == u.id && v.priority == u.priority && v.baseSha == u.baseSha
    && v.expectedPaths == u.expectedPaths && v.dependsOn == u.dependsOn && v.receipt == u.receipt
  }

  /** Moved to this status and batch, and otherwise as it was. */
  ghost predicate MovedTo(u: Task, v: Task, status: TaskStatus, batch: Option<BatchId>) {
    && SameWork(u, v) && v.status == status && v.batchId == batch
    && v.lease == u.lease && v.attempts == u.attempts && v.mergedAt == u.mergedAt
  }

  /** Each listed task is known before and after. */
  ghost predicate Listed(s: State, t: State, ids: seq<TaskId>) {
    forall k | k in ids :: k in s.tasks && k in t.tasks
  }

  // ---- The catch block of an integration ----

  /** Whose fault a failed integration was decides. A rehearsal gives every task back as it was. Otherwise the
      culprit fails, and the others are queued once more while they have an attempt left; and if nobody is
      to blame all fail. */
  ghost predicate FailsAsItShould(u: Task, v: Task, id: TaskId, dry: bool, culprit: Option<TaskId>, maxAttempts: nat) {
    && SameWork(u, v) && v.lease == u.lease && v.mergedAt == u.mergedAt && v.batchId == None
    && (dry ==> v.status == Submitted && v.attempts == u.attempts)
    && (!dry && culprit == None ==> v.status == Failed && v.attempts == u.attempts)
    && (!dry && culprit == Some(id) ==> v.status == Failed && v.attempts == u.attempts)
    && (!dry && culprit.Some? && culprit != Some(id) ==>
          if u.attempts + 1 < maxAttempts then v.status == Submitted && v.attempts == u.attempts + 1
          else v.status == Failed && v.attempts == u.attempts)
  }

  lemma FailedIntegration(s: State, culprit: Option<TaskId>, maxAttempts: nat)
    requires FailIntegration(s, culprit, maxAttempts).Some?
    ensures s.integration.Building?
    ensures var t, mem := FailIntegration(s, culprit, maxAttempts).value, s.integration.mem;
            && Listed(s, t, mem.taskIds) && OthersUntouched(s, t, mem.taskIds)
            && (forall k | k in mem.taskIds ::
                  FailsAsItShould(s.tasks[k], t.tasks[k], k, s.integration.dry, culprit, maxAttempts))
            && s.integration.id in t.batches && t.batches[s.integration.id].status == BatchFailed
            && t.batches[s.integration.id].branchName == None && t.batches[s.integration.id].taskIds == mem.taskIds
            && t.integration == Free
            && t.batches.Keys == s.batches.Keys + {s.integration.id}
            && forall b | b in s.batches && b != s.integration.id :: t.batches[b] == s.batches[b]
  {
    var t, mem := FailIntegration(s, culprit, maxAttempts).value, s.integration.mem;
    assert t.batches == s.batches[s.integration.id := t.batches[s.integration.id]];
  }

  // ---- The other ends of an integration ----

  /** A batch starts only from what the plan was made of: no task has been given another receipt, base or
      dependencies, or been touched at all, since the planner read it. */
  lemma StartedAsPlanned(s: State, id: BatchId, plan: seq<Task>, branch: nat, sha: Sha, bound: bool, local: bool, i: nat)
    requires StartBatch(s, id, plan, branch, sha, bound, local).Some? && i < |plan|
    ensures s.integration.Cleared? && plan[i].id in s.tasks
    ensures var u := s.tasks[plan[i].id];
            && u.status == Submitted && u.receipt == plan[i].receipt && u.baseSha == plan[i].baseSha
            && u.dependsOn == plan[i].dependsOn && u.updatedAt == plan[i].updatedAt
    ensures forall j | 0 <= j < |plan| && j != i :: plan[j].id != plan[i].id
  {
    forall j | 0 <= j < |plan| && j != i ensures plan[j].id != plan[i].id {
      if j < i { assert !(plan[j].id == plan[i].id); } else { assert !(plan[i].id == plan[j].id); }
    }
  }

  lemma StartedBatch(s: State, id: BatchId, plan: seq<Task>, branch: nat, sha: Sha, bound: bool, local: bool)
    requires StartBatch(s, id, plan, branch, sha, bound, local).Some?
    ensures var t := StartBatch(s, id, plan, branch, sha, bound, local).value;
            && id !in s.batches && id in t.batches
            && var b := t.batches[id];
            && b.status == Running && b.baseBranch == branch && b.baseSha == sha && b.candidate == None && b.pullRequest == None
            && |b.taskIds| == |plan| && (forall i | 0 <= i < |plan| :: b.taskIds[i] == plan[i].id)
            && Listed(s, t, b.taskIds) && OthersUntouched(s, t, b.taskIds)
            && (forall k | k in b.taskIds :: s.tasks[k].status == Submitted && MovedTo(s.tasks[k], t.tasks[k], Integrating, Some(id)))
  {
    var t := StartBatch(s, id, plan, branch, sha, bound, local).value;
    var b := t.batches[id];
    forall k | k in b.taskIds
      ensures k in s.tasks && k in t.tasks && s.tasks[k].status == Submitted && MovedTo(s.tasks[k], t.tasks[k], Integrating, Some(id))
    {
      var i :| 0 <= i < |plan| && b.taskIds[i] == k;
      assert plan[i].id in s.tasks;
    }
  }

  /** Under an approval policy what is assembled becomes the first candidate: of exactly that commit and base,
      wanting exactly what the policy names, and with nothing to its credit. */
  lemma BranchedBatch(s: State, branch: nat, sha: Sha, p: Policy)
    requires RecordBranch(s, branch, sha, p).Some?
    ensures s.integration.Building?
    ensures var t, id := RecordBranch(s, branch, sha, p).value, s.integration.id;
            && id in t.batches && t.batches[id].branchName == Some(branch) && t.batches[id].headSha == Some(sha)
            && t.tasks == s.tasks && t.integration.Building? && t.integration.mem.headSha == Some(sha)
            && (t.integration.mem.candidate.Some? <==> p.required)
            && (p.required ==>
                  var c := t.integration.mem.candidate.value;
                  && c.sha == sha && c.baseSha == s.integration.mem.baseSha && c.policyRevision == p.revision && c.revision == 1
                  && c.evidence == [] && c.approval == None
                  && (forall name :: name in c.required <==>
                        name in p.verifications || exists k | 0 <= k < |p.checks| :: name == "github-check:" + p.checks[k]))
  {
    if p.required { RequiredAre(p); }
  }

  lemma RequiredAre(p: Policy)
    ensures forall name :: name in RequiredEvidence(p) <==>
                             name in p.verifications || exists k | 0 <= k < |p.checks| :: name == "github-check:" + p.checks[k]
  {
    var checks := seq(|p.checks|, i requires 0 <= i < |p.checks| => CheckName(p.checks[i]));
    forall name ensures name in checks <==> exists k | 0 <= k < |p.checks| :: name == "github-check:" + p.checks[k] {
      if k :| 0 <= k < |p.checks| && name == "github-check:" + p.checks[k] { assert checks[k] == name; }
    }
  }

  /** Preparing ends the leases of its tasks. */
  lemma PreparedBatch(s: State)
    requires PrepareBatch(s).Some?
    ensures s.integration.Building?
    ensures var t, id := PrepareBatch(s).value, s.integration.id;
            && id in t.batches && t.batches[id] == s.integration.mem.(status := Prepared)
            && var ids := t.batches[id].taskIds;
            && Listed(s, t, ids) && OthersUntouched(s, t, ids)
            && (forall k | k in ids ::
                  t.tasks[k].status == Batched && t.tasks[k].lease == None && t.tasks[k].batchId == s.tasks[k].batchId
                  && t.tasks[k].attempts == s.tasks[k].attempts && SameWork(s.tasks[k], t.tasks[k]))
  {
  }

  lemma FinishedDryRun(s: State, sha: Sha)
    requires FinishDryRun(s, sha).Some?
    ensures s.integration.Building? && s.integration.dry
    ensures var t, id := FinishDryRun(s, sha).value, s.integration.id;
            && id in t.batches && t.batches[id].status == Verified && t.batches[id].headSha == Some(sha)
            && var ids := t.batches[id].taskIds;
            && Listed(s, t, ids) && OthersUntouched(s, t, ids)
            && (forall k | k in ids :: MovedTo(s.tasks[k], t.tasks[k], Submitted, None))
  {
  }

  /** Recovery gives back the tasks that are still in the abandoned batch, and no others. */
  lemma RecoveredBatch(s: State, id: BatchId)
    requires id in s.batches && s.batches[id].status == Running
    ensures var t, b := RecoverBatch(s, id), s.batches[id];
            && t.batches == s.batches[id := b.(status := BatchFailed, finishedAt := Some(s.now))]
            && OthersUntouched(s, t, b.taskIds)
            && forall k | k in b.taskIds && k in s.tasks ::
                 if s.tasks[k].status == Integrating && s.tasks[k].batchId == Some(id)
                 then MovedTo(s.tasks[k], t.tasks[k], Submitted, None) else t.tasks[k] == s.tasks[k]
  {
  }

  // ---- The ends of a prepared or published batch ----

  /** Publication records where, and every listed task is published. */
  lemma PublishedBatch(s: State, id: BatchId, url: Option<nat>)
    requires PublishBatch(s, id, url).Some?
    ensures id in s.batches
    ensures var t, b := PublishBatch(s, id, url).value, s.batches[id];
            && id in t.batches && t.batches[id].status == BatchPublished
            && t.batches[id].pullRequest == (if url.Some? then url else b.pullRequest)
            && t.batches[id].candidate == b.candidate && t.batches[id].headSha == b.headSha && t.batches[id].taskIds == b.taskIds
            && Listed(s, t, b.taskIds) && OthersUntouched(s, t, b.taskIds)
            && forall k | k in b.taskIds :: MovedTo(s.tasks[k], t.tasks[k], Published, s.tasks[k].batchId)
  {
  }

  /** Closing pauses every task that is not merged: it has failed and belongs to no batch. */
  lemma ClosedBatch(s: State, id: BatchId, changeRequest: bool, revocation: bool, refreshRequired: bool, refreshClose: bool)
    requires CloseLocked(s, id, changeRequest, revocation, refreshRequired, refreshClose).Some?
    ensures id in s.batches && (s.batches[id].status == Prepared || s.batches[id].status == BatchPublished)
    ensures var t, b := CloseLocked(s, id, changeRequest, revocation, refreshRequired, refreshClose).value, s.batches[id];
            && id in t.batches && t.batches[id].status == Closed
            && (b.candidate.Some? ==> t.batches[id].candidate.Some? && t.batches[id].candidate.value.state == Abandoned)
            && Listed(s, t, b.taskIds) && OthersUntouched(s, t, b.taskIds)
            && forall k | k in b.taskIds ::
                 (s.tasks[k].batchId == None || s.tasks[k].batchId == Some(id))
                 && if s.tasks[k].status == Merged then t.tasks[k] == s.tasks[k] else MovedTo(s.tasks[k], t.tasks[k], Failed, None)
  {
  }

  /** Superseding queues them again instead, and costs no attempt. */
  lemma SupersededBatch(s: State, id: BatchId)
    requires FinishRefresh(s, id).Some?
    ensures id in s.batches
    ensures var t, b := FinishRefresh(s, id).value, s.batches[id];
            && id in t.batches && t.batches[id].status == Closed && t.batches[id].branchName == None
            && (b.candidate.Some? ==> t.batches[id].candidate.Some? && t.batches[id].candidate.value.state == Superseded)
            && Listed(s, t, b.taskIds) && OthersUntouched(s, t, b.taskIds)
            && forall k | k in b.taskIds ::
                 if s.tasks[k].status == Merged then t.tasks[k] == s.tasks[k] else MovedTo(s.tasks[k], t.tasks[k], Submitted, None)
  {
  }

  /** Completion merges every listed task, at the instant that is recorded. */
  lemma MergedBatch(s: State, id: BatchId, p: Policy, at: Instant)
    requires MarkMergedLocked(s, id, p, at).Some?
    ensures id in s.batches
    ensures var t, b := MarkMergedLocked(s, id, p, at).value, s.batches[id];
            && id in t.batches && t.batches[id].status == BatchMerged && t.batches[id].finishedAt == Some(at)
            && Listed(s, t, b.taskIds) && OthersUntouched(s, t, b.taskIds)
            && forall k | k in b.taskIds ::
                 (s.tasks[k].batchId == None || s.tasks[k].batchId == Some(id))
                 && t.tasks[k].status == Merged && t.tasks[k].mergedAt == Some(at) && SameWork(s.tasks[k], t.tasks[k])
                 && t.tasks[k].batchId == s.tasks[k].batchId
  {
  }

  /** A broken invariant at the forge fails the batch and every listed task, whatever they were. */
  lemma ViolatedBatch(s: State, id: BatchId, cfg: Config, pr: PullRequest)
    requires Held(s, id) && CommitSync(s, id, cfg, pr, FailBatch).Some?
    ensures var t, b := CommitSync(s, id, cfg, pr, FailBatch).value, s.batches[id];
            && id in t.batches && t.batches[id].status == BatchFailed
            && (b.candidate.Some? ==>
                  t.batches[id].candidate.Some? && t.batches[id].candidate.value.state == Blocked
                  && t.batches[id].candidate.value.approval == None)
            && Listed(s, t, b.taskIds) && OthersUntouched(s, t, b.taskIds)
            && forall k | k in b.taskIds :: MovedTo(s.tasks[k], t.tasks[k], Failed, s.tasks[k].batchId)
  {
  }

  // ---- What a worker does to its task ----

  /** A claim gives the task to its caller, with the scope that was asked for, or the one it had. */
  lemma ClaimedTask(s: State, id: TaskId, sha: Sha, paths: Option<seq<string>>, deps: Option<seq<TaskId>>,
                    priority: Option<int>, lease: Lease)
    requires ClaimTask(s, id, sha, paths, deps, priority, lease).Some?
    ensures var t := ClaimTask(s, id, sha, paths, deps, priority, lease).value;
            && id in t.tasks && t.tasks[id].status == Claimed && t.tasks[id].lease == Some(lease)
            && (id in s.tasks ==>
                  (s.tasks[id].status == Registered || s.tasks[id].status == Claimed || s.tasks[id].status == Failed)
                  && (s.tasks[id].lease.None? || s.tasks[id].lease.value.expiresAt <= s.now))
            && (forall p :: p in t.tasks[id].expectedPaths <==>
                  p in if paths.Some? then paths.value else if id in s.tasks then s.tasks[id].expectedPaths else [])
            && t.tasks[id].expectedPaths != []
            && (priority.Some? ==> t.tasks[id].priority == priority.value)
            && (priority.None? ==> t.tasks[id].priority == if id in s.tasks then s.tasks[id].priority else 0)
            && t.batches == s.batches && forall k | k in s.tasks && k != id :: k in t.tasks && t.tasks[k] == s.tasks[k]
  {
    var expected := if paths.Some? then paths.value else if id in s.tasks then s.tasks[id].expectedPaths else [];
    DedupKeepsElements(expected);
    assert expected[0] in expected;
  }

  lemma RegisteredTask(s: State, id: TaskId, priority: int, sha: Sha, paths: seq<string>, deps: seq<TaskId>)
    requires RegisterTask(s, id, priority, sha, paths, deps).Some?
    ensures var t := RegisterTask(s, id, priority, sha, paths, deps).value;
            && id !in s.tasks && t.batches == s.batches && t.tasks.Keys == s.tasks.Keys + {id}
            && (forall k | k in s.tasks :: t.tasks[k] == s.tasks[k])
            && var u := t.tasks[id];
            && u.id == id && u.status == Registered && u.priority == priority && u.baseSha == sha && u.expectedPaths == paths
            && (forall d :: d in u.dependsOn <==> d in deps) && u.lease == None && u.batchId == None && u.attempts == 0
            && u.receipt.commits == [] && u.receipt.submittedAt == None && u.mergedAt == None
  {
    DedupKeepsElements(deps);
  }

  /** Extending adds to the scope and takes nothing from it; keeping alive changes only when the lease ends. */
  lemma ExtendedTask(s: State, id: TaskId, paths: seq<string>, token: nat, expiresAt: Instant)
    ensures ExtendTask(s, id, paths, token).Some? ==>
              var t, u := ExtendTask(s, id, paths, token).value, s.tasks[id];
              && id in s.tasks && id in t.tasks && (u.status == Claimed || u.status == Failed)
              && (forall p :: p in t.tasks[id].expectedPaths <==> p in u.expectedPaths || p in paths)
              && t.tasks[id].lease == u.lease && t.tasks[id].status == u.status
              && t.batches == s.batches && forall k | k in s.tasks && k != id :: k in t.tasks && t.tasks[k] == s.tasks[k]
    ensures Heartbeat(s, id, token, expiresAt).Some? ==>
              var t, u := Heartbeat(s, id, token, expiresAt).value, s.tasks[id];
              && id in s.tasks && id in t.tasks && u.lease.Some?
              && t.tasks[id].lease == Some(Lease(u.lease.value.token, u.lease.value.holder, expiresAt))
              && t.tasks[id].status == u.status && t.tasks[id].batchId == u.batchId && SameWork(u, t.tasks[id])
              && t.batches == s.batches && forall k | k in s.tasks && k != id :: k in t.tasks && t.tasks[k] == s.tasks[k]
  {
    if id in s.tasks { DedupKeepsElements(s.tasks[id].expectedPaths + paths); }
  }

  /** A submission records exactly what was submitted, and when, and queues the task. */
  lemma SubmittedTask(s: State, id: TaskId, token: nat, receipt: Receipt, requireDependencies: bool)
    requires SubmitTask(s, id, token, receipt, requireDependencies).Some?
    ensures id in s.tasks
    ensures var t, u := SubmitTask(s, id, token, receipt, requireDependencies).value, s.tasks[id];
            && (u.status == Claimed || u.status == Failed || u.status == Submitted)
            && id !in u.dependsOn && (requireDependencies ==> forall d | d in u.dependsOn :: d in s.tasks)
            && id in t.tasks && t.tasks[id].status == Submitted && t.tasks[id].lease == u.lease
            && t.tasks[id].receipt.commits == receipt.commits && t.tasks[id].receipt.actualPaths == receipt.actualPaths
            && t.tasks[id].receipt.submittedAt == Some(s.now)
            && t.tasks[id].expectedPaths == u.expectedPaths && t.tasks[id].dependsOn == u.dependsOn
            && t.batches == s.batches && forall k | k in s.tasks && k != id :: k in t.tasks && t.tasks[k] == s.tasks[k]
  {
    var u := s.tasks[id];
    if requireDependencies {
      forall d | d in u.dependsOn ensures d in s.tasks { var i :| 0 <= i < |u.dependsOn| && u.dependsOn[i] == d; }
    }
  }

  /** A retry queues a failed task afresh: no batch, and its attempts not counted. */
  lemma RetriedTask(s: State, id: TaskId, token: Option<nat>)
    requires RetryTask(s, id, token).Some?
    ensures id in s.tasks && s.tasks[id].status == Failed
    ensures var t := RetryTask(s, id, token).value;
            && id in t.tasks && t.tasks[id].status == Submitted && t.tasks[id].batchId == None && t.tasks[id].attempts == 0
            && SameWork(s.tasks[id], t.tasks[id]) && t.tasks[id].lease == s.tasks[id].lease
            && t.batches == s.batches && forall k | k in s.tasks && k != id :: k in t.tasks && t.tasks[k] == s.tasks[k]
  {
  }

  /** What has been batched or landed cannot be cancelled; anything else ends, with its lease. */
  lemma CancelledTask(s: State, id: TaskId, token: Option<nat>, force: bool)
    requires CancelTask(s, id, token, force).Some?
    ensures id in s.tasks && s.tasks[id].status != Batched && s.tasks[id].status != Published && s.tasks[id].status != Merged
    ensures var t := CancelTask(s, id, token, force).value;
            && id in t.tasks && t.tasks[id].status == Cancelled && t.tasks[id].lease == None && SameWork(s.tasks[id], t.tasks[id])
            && t.batches == s.batches && forall k | k in s.tasks && k != id :: k in t.tasks && t.tasks[k] == s.tasks[k]
  {
  }

  /** Releasing ends the lease, and a task that was only claimed or had failed may be claimed by anyone. */
  lemma ReleasedTask(s: State, id: TaskId, token: Option<nat>, force: bool)
    requires ReleaseTask(s, id, token, force).Some?
    ensures id in s.tasks
    ensures var t, u := ReleaseTask(s, id, token, force).value, s.tasks[id];
            && id in t.tasks && t.tasks[id].lease == None && SameWork(u, t.tasks[id])
            && t.tasks[id].status == (if u.status == Claimed || u.status == Failed then Registered else u.status)
            && t.batches == s.batches && forall k | k in s.tasks && k != id :: k in t.tasks && t.tasks[k] == s.tasks[k]
  {
  }

  // ---- Attempts ----

  /** No task has been given more attempts than `most` allows. */
  ghost predicate WithinBudget(s: State, most: nat) {
    forall k | k in s.tasks :: s.tasks[k].attempts == 0 || s.tasks[k].attempts < most
  }

  ghost predicate AttemptsKept(s: State, t: State) {
    forall k | k in t.tasks :: t.tasks[k].attempts == 0 || (k in s.tasks && t.tasks[k].attempts == s.tasks[k].attempts)
  }

  lemma EditKeepsAttempts(s: State, t: State, ids: seq<TaskId>, e: Edit)
    requires !e.IntegrationFailed? && t.tasks == EditTasks(s.tasks, ids, e, s.now)
    ensures AttemptsKept(s, t)
  {
  }

  lemma {:induction false} RecoveryKeepsAttempts(s: State, ids: seq<BatchId>)
    ensures AttemptsKept(s, RecoverEach(s, ids))
    decreases |ids|
  {
    if ids != [] { RecoveryKeepsAttempts(RecoverBatch(s, ids[0]), ids[1..]); }
  }

  ghost predicate KeepsAttempts(s: State, o: Outcome) {
    o.Some? ==> AttemptsKept(s, o.value)
  }

  lemma ClaimersKeepAttempts(s: State, step: Step)
    requires step.SRegister? || step.SClaim? || step.SExtend? || step.SHeartbeat?
    ensures KeepsAttempts(s, Apply(s, step))
  {
  }

  lemma WorkersKeepAttempts(s: State, step: Step)
    requires step.SRelease? || step.SCancel? || step.SRetry? || step.SSubmit?
    ensures KeepsAttempts(s, Apply(s, step))
  {
  }

  lemma AssemblyKeepsAttempts(s: State, step: Step)
    requires step.SStart? || step.SFinishDryRun? || step.SPrepare?
    ensures KeepsAttempts(s, Apply(s, step))
  {
  }

  lemma CloseKeepsAttempts(s: State, id: BatchId, a: bool, b: bool, c: bool, d: bool)
    ensures KeepsAttempts(s, CloseLocked(s, id, a, b, c, d))
  {
  }

  lemma ClosingKeepsAttempts(s: State, step: Step)
    requires step.SClose? || step.SRejectRefresh? || step.SMarkMerged? || step.SSyncLanded?
    ensures KeepsAttempts(s, Apply(s, step))
  {
  }

  lemma EndingKeepsAttempts(s: State, step: Step)
    requires step.SPublish? || step.SFinishRefresh?
    ensures KeepsAttempts(s, Apply(s, step))
  {
  }

  lemma CommitKeepsAttempts(s: State, id: BatchId, cfg: Config, pr: PullRequest, action: SyncAction)
    requires Held(s, id)
    ensures KeepsAttempts(s, CommitSync(s, id, cfg, pr, action))
  {
  }

  lemma ChangesKeepAttempts(s: State, id: BatchId, pr: PullRequest)
    ensures KeepsAttempts(s, CompleteChangeRequest(s, id, pr))
  {
  }

  lemma ForgeKeepsAttempts(s: State, step: Step)
    requires step.SSync? || step.SCompleteChanges?
    ensures KeepsAttempts(s, Apply(s, step))
  {
    if step.SCompleteChanges? { ChangesKeepAttempts(s, step.id, step.pr); }
    else if Apply(s, step).Some? { CommitKeepsAttempts(s, step.id, step.config, step.pr, step.action); }
  }

  lemma RevisionKeepsAttempts(s: State, step: Step)
    requires step.SReopen? || LeaseExclusion.Revises(step)
    ensures KeepsAttempts(s, Apply(s, step))
  {
  }

  lemma OtherStepKeepsAttempts(s: State, step: Step)
    requires !step.SFailIntegration?
    ensures KeepsAttempts(s, Apply(s, step))
  {
    if step.SRegister? || step.SClaim? || step.SExtend? || step.SHeartbeat? { ClaimersKeepAttempts(s, step); }
    else if WorkerStep(step) { WorkersKeepAttempts(s, step); }
    else if step.SStart? || step.SFinishDryRun? || step.SPrepare? { AssemblyKeepsAttempts(s, step); }
    else if step.SRecoverRunning? { RecoveryKeepsAttempts(s, step.ids); }
    else if step.SSync? || step.SCompleteChanges? { ForgeKeepsAttempts(s, step); }
    else if step.SPublish? || step.SFinishRefresh? { EndingKeepsAttempts(s, step); }
    else if LeaseExclusion.EditsTasks(step) { ClosingKeepsAttempts(s, step); }
    else if step.SReopen? || LeaseExclusion.Revises(step) { RevisionKeepsAttempts(s, step); }
    else { LeaseExclusion.TaskFreeSteps(s, step); }
  }

  lemma KeptIsWithin(s: State, t: State, most: nat)
    requires WithinBudget(s, most) && AttemptsKept(s, t)
    ensures WithinBudget(t, most)
  {
  }

  lemma StepKeepsBudget(s: State, step: Step, most: nat)
    requires WithinBudget(s, most) && (step.SFailIntegration? ==> step.maxAttempts <= most) && Apply(s, step).Some?
    ensures WithinBudget(Apply(s, step).value, most)
  {
    if step.SFailIntegration? {
      FailedIntegration(s, step.culprit, step.maxAttempts);
    } else {
      OtherStepKeepsAttempts(s, step);
      KeptIsWithin(s, Apply(s, step).value, most);
    }
  }

  /** However often integrations fail, a task that was not to blame is queued again without being asked for at
      most `most - 1` times; only an explicit retry begins the count again. */
  lemma {:induction false} RetriesAreBounded(serialized: seq<string>, states: seq<State>, steps: seq<Step>, k: nat, most: nat)
    requires Run(serialized, states, steps) && k < |states|
    requires forall i | 0 <= i < k :: steps[i].SFailIntegration? ==> steps[i].maxAttempts <= most
    ensures WithinBudget(states[k], most)
  {
    if k > 0 {
      RetriesAreBounded(serialized, states, steps, k - 1, most);
      StepOf(serialized, states, steps, k - 1);
      StepKeepsBudget(states[k - 1], steps[k - 1], most);
    }
  }
}
