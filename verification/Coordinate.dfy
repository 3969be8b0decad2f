/**
 Coordinate mode as a state machine (src/broker.ts). One step is one `store.transaction`, one
 lock taken or lost, or the passing of time; forge and Git answers are arbitrary inputs of the
 step that reads them. A crash may fall between any two steps: it is the step that drops a lock.

 `views` holds, for every held batch lock, the record its holder last read or wrote. Operations
 decide on that view and write to the stored record, exactly as the code does, so the argument
 that the lock keeps the two equal is a theorem here and not an assumption.
 */
module Coordinate {
  import opened Common
  import opened Records
  import opened CandidateLifecycle
  import Patterns
  import Pruning

  /** What the holder of the integration lock is doing. `mem` is its in-memory batch record. */
  datatype Integration =
    | Free
    | Recovering
    | Revising(id: BatchId, task: TaskId)
    | Cleared(force: bool, dry: bool)
    | Building(id: BatchId, mem: Batch, force: bool, dry: bool)

  datatype State = State(
    tasks: map<TaskId, Task>,
    batches: map<BatchId, Batch>,
    views: map<BatchId, Batch>,
    integration: Integration,
    serialized: seq<string>,
    now: Instant)

  type Outcome = Option<State>

  // ---- Leases ----

  predicate LeaseLive(t: Task, now: Instant) {
    t.lease.Some? && now < t.lease.value.expiresAt
  }

  predicate LeaseVerified(t: Task, token: nat, now: Instant) {
    LeaseLive(t, now) && t.lease.value.token == token
  }

  function Resources(s: State, paths: seq<string>): set<string> {
    set r | r in s.serialized && Patterns.SetsMayOverlap(paths, [r])
  }

  predicate ScopesClash(s: State, left: seq<string>, right: seq<string>) {
    Patterns.SetsMayOverlap(left, right) || Resources(s, left) * Resources(s, right) != {}
  }

  predicate NoLeaseConflict(s: State, id: TaskId, paths: seq<string>) {
    forall other | other in s.tasks && other != id && LeaseLive(s.tasks[other], s.now) ::
      !ScopesClash(s, paths, s.tasks[other].expectedPaths)
  }

  // ---- Task edits ----

  /** One assignment a transaction makes to every task of a batch. */
  datatype Edit =
    | EnterIntegration(batch: BatchId)
    | ToSubmitted
    | ToBatched
    | ToPublished
    | ToFailed
    | Pause
    | Requeue
    | ToMerged(at: Instant)
    | IntegrationFailed(culprit: Option<TaskId>, dry: bool, maxAttempts: nat)
    | Recover(batch: BatchId)

  function Applied(e: Edit, id: TaskId, t: Task, now: Instant): Task {
    match e
    case EnterIntegration(batch) => t.(status := Integrating, batchId := Some(batch), updatedAt := now)
    case ToSubmitted => t.(status := Submitted, batchId := None, updatedAt := now)
    case ToBatched => t.(status := Batched, lease := None, updatedAt := now)
    case ToPublished => t.(status := Published, updatedAt := now)
    case ToFailed => t.(status := Failed, updatedAt := now)
    case Pause => if t.status == Merged then t else t.(status := Failed, batchId := None, updatedAt := now)
    case Requeue => if t.status == Merged then t else t.(status := Submitted, batchId := None, updatedAt := now)
    case ToMerged(at) => t.(status := Merged, mergedAt := Some(at), updatedAt := now)
    case IntegrationFailed(culprit, dry, maxAttempts) =>
      var u := t.(batchId := None, updatedAt := now);
      if dry then u.(status := Submitted)
      else if culprit.Some? && id != culprit.value && t.attempts + 1 < maxAttempts
      then u.(attempts := t.attempts + 1, status := Submitted)
      else u.(status := Failed)
    case Recover(batch) =>
      if t.status == Integrating && t.batchId == Some(batch)
      then t.(status := Submitted, batchId := None, updatedAt := now)
      else t
  }

  function EditTasks(tasks: map<TaskId, Task>, ids: seq<TaskId>, e: Edit, now: Instant): (r: map<TaskId, Task>)
    ensures r.Keys == tasks.Keys
  {
    map t | t in tasks :: if t in ids then Applied(e, t, tasks[t], now) else tasks[t]
  }

  predicate TasksKnown(s: State, ids: seq<TaskId>) {
    forall t | t in ids :: t in s.tasks
  }

  function PutTask(s: State, id: TaskId, t: Task): State {
    s.(tasks := s.tasks[id := t.(updatedAt := s.now)])
  }

  // ---- Writing a batch ----

  /** A write by the holder of the batch lock, who then knows the new record. */
  function Put(s: State, id: BatchId, b: Batch): State {
    s.(batches := s.batches[id := b], views := if id in s.views then s.views[id := b] else s.views)
  }

  function PutAll(s: State, id: BatchId, b: Batch, e: Edit): State {
    Put(s, id, b).(tasks := EditTasks(s.tasks, b.taskIds, e, s.now))
  }

  /** A write by the holder of the integration lock, of which a batch lock holder learns nothing. */
  function PutUnseen(s: State, id: BatchId, b: Batch, e: Edit): State {
    s.(batches := s.batches[id := b], tasks := EditTasks(s.tasks, b.taskIds, e, s.now))
  }

  /** A revising process holds the batch lock too, and does nothing else while it revises. */
  predicate Held(s: State, id: BatchId) {
    id in s.views && id in s.batches && !(s.integration.Revising? && s.integration.id == id)
  }

  predicate Outstanding(b: Batch) {
    b.status == Prepared || b.status == BatchPublished
  }

  // ---- Worker operations (no lock) ----

  function NewTask(s: State, id: TaskId, priority: int, baseSha: Sha, paths: seq<string>, deps: seq<TaskId>): Task {
    Task(id, Registered, priority, baseSha, paths, deps, Receipt([], [], None), None, None, 0, s.now, None)
  }

  function RegisterTask(s: State, id: TaskId, priority: int, baseSha: Sha, paths: seq<string>, deps: seq<TaskId>): Outcome {
    if id in s.tasks then None else Some(PutTask(s, id, NewTask(s, id, priority, baseSha, paths, Dedup(deps))))
  }

  function OrElse<T>(o: Option<T>, default: T): T {
    if o.Some? then o.value else default
  }

  function ClaimTask(s: State, id: TaskId, baseSha: Sha, paths: Option<seq<string>>, deps: Option<seq<TaskId>>,
                     priority: Option<int>, lease: Lease): Outcome {
    var task := if id in s.tasks then s.tasks[id]
                else NewTask(s, id, OrElse(priority, 0), baseSha, OrElse(paths, []), Dedup(OrElse(deps, [])));
    var expected := OrElse(paths, task.expectedPaths);
    if task.status != Registered && task.status != Claimed && task.status != Failed then None
    else if LeaseLive(task, s.now) || expected == [] || !NoLeaseConflict(s, id, expected) then None
    else Some(PutTask(s, id, task.(status := Claimed, expectedPaths := Dedup(expected),
                                   dependsOn := Dedup(OrElse(deps, task.dependsOn)), priority := OrElse(priority, task.priority),
                                   lease := Some(lease))))
  }

  function Heartbeat(s: State, id: TaskId, token: nat, expiresAt: Instant): Outcome {
    if id !in s.tasks || !LeaseVerified(s.tasks[id], token, s.now) then None
    else
      var t := s.tasks[id];
      Some(PutTask(s, id, t.(lease := Some(t.lease.value.(expiresAt := expiresAt)))))
  }

  function ExtendTask(s: State, id: TaskId, paths: seq<string>, token: nat): Outcome {
    if paths == [] || id !in s.tasks || !LeaseVerified(s.tasks[id], token, s.now) then None
    else
      var t := s.tasks[id];
      var next := Dedup(t.expectedPaths + paths);
      if (t.status != Claimed && t.status != Failed) || !NoLeaseConflict(s, id, next) then None
      else Some(PutTask(s, id, t.(expectedPaths := next)))
  }

  function ReleaseTask(s: State, id: TaskId, token: Option<nat>, force: bool): Outcome {
    if id !in s.tasks || (!force && (token.None? || !LeaseVerified(s.tasks[id], token.value, s.now))) then None
    else
      var t := s.tasks[id];
      var status := if t.status == Claimed || t.status == Failed then Registered else t.status;
      Some(PutTask(s, id, t.(lease := None, status := status)))
  }

  function CancelTask(s: State, id: TaskId, token: Option<nat>, force: bool): Outcome {
    if id !in s.tasks then None
    else
      var t := s.tasks[id];
      if t.lease.Some? && !force && (token.None? || !LeaseVerified(t, token.value, s.now)) then None
      else if t.status == Batched || t.status == Published || t.status == Merged then None
      else Some(PutTask(s, id, t.(lease := None, status := Cancelled)))
  }

  function RetryTask(s: State, id: TaskId, token: Option<nat>): Outcome {
    if id !in s.tasks || s.tasks[id].status != Failed then None
    else
      var t := s.tasks[id];
      if LeaseLive(t, s.now) && (token.None? || !LeaseVerified(t, token.value, s.now)) then None
      else Some(PutTask(s, id, t.(status := Submitted, batchId := None, attempts := 0)))
  }

  function SubmitTask(s: State, id: TaskId, token: nat, receipt: Receipt, requireDependencies: bool): Outcome {
    if id !in s.tasks || !LeaseVerified(s.tasks[id], token, s.now) then None
    else
      var t := s.tasks[id];
      if t.status != Claimed && t.status != Failed && t.status != Submitted then None
      else if id in t.dependsOn || (requireDependencies && exists i | 0 <= i < |t.dependsOn| :: t.dependsOn[i] !in s.tasks)
      then None
      else Some(PutTask(s, id, t.(status := Submitted, receipt := receipt.(submittedAt := Some(s.now)))))
  }

  // ---- Integration (the integration lock) ----

  function TakeIntegrationLock(s: State): Outcome {
    if s.integration.Free? then Some(s.(integration := Recovering)) else None
  }

  function DropIntegrationLock(s: State): Outcome {
    Some(s.(integration := Free))
  }

  /** Recovery of one abandoned integration: whatever is still `running` failed. */
  function RecoverBatch(s: State, id: BatchId): State {
    if id !in s.batches || s.batches[id].status != Running then s
    else PutUnseen(s, id, s.batches[id].(status := BatchFailed, finishedAt := Some(s.now)), Recover(id))
  }

  function RecoverEach(s: State, ids: seq<BatchId>): State
    decreases |ids|
  {
    if ids == [] then s else RecoverEach(RecoverBatch(s, ids[0]), ids[1..])
  }

  function RecoverRunning(s: State, ids: seq<BatchId>): Outcome {
    if s.integration.Recovering? then Some(RecoverEach(s, ids)) else None
  }

  function CheckOutstanding(s: State, force: bool, dry: bool): Outcome {
    if !s.integration.Recovering? then None
    else if !dry && !force && exists id | id in s.batches :: Outstanding(s.batches[id]) then None
    else Some(s.(integration := Cleared(force, dry)))
  }

  predicate SameReceipt(t: Task, planned: Task) {
    t.updatedAt == planned.updatedAt && t.receipt == planned.receipt && t.baseSha == planned.baseSha
    && t.dependsOn == planned.dependsOn
  }

  function Started(ids: seq<TaskId>, baseBranch: nat, baseSha: Sha, targetBound: bool, localOnly: bool, now: Instant): Batch {
    Batch(Running, ids, baseBranch, baseSha, None, None, None, [], None, None, false, None, false, None, None,
          targetBound, localOnly, now, None)
  }

  /** `id` is freshly generated; `plan` is what the scheduler selected from an earlier read. */
  function StartBatch(s: State, id: BatchId, plan: seq<Task>, baseBranch: nat, baseSha: Sha,
                      targetBound: bool, localOnly: bool): Outcome {
    if !s.integration.Cleared? || plan == [] || id in s.batches || id in s.views then None
    else if exists i | 0 <= i < |plan| ::
        plan[i].id !in s.tasks || s.tasks[plan[i].id].status != Submitted || !SameReceipt(s.tasks[plan[i].id], plan[i])
    then None
    else if exists i, j | 0 <= i < j < |plan| :: plan[i].id == plan[j].id then None
    else
      var ids := seq(|plan|, i requires 0 <= i < |plan| => plan[i].id);
      var b := Started(ids, baseBranch, baseSha, targetBound, localOnly, s.now);
      Some(PutUnseen(s, id, b, EnterIntegration(id)).(
        integration := Building(id, b, s.integration.force, s.integration.dry)))
  }

  /** The assembled head and, under an approval policy, its candidate are fixed in memory, and the
      branch about to be created is recorded. */
  function RecordBranch(s: State, branchName: nat, headSha: Sha, p: Policy): Outcome {
    if !s.integration.Building? || s.integration.dry || s.integration.mem.status != Running
       || s.integration.mem.branchName.Some?
    then None
    else
      var id, mem := s.integration.id, s.integration.mem;
      if id !in s.batches || s.batches[id].status != Running then None
      else
        var candidate := if p.required then Some(MakeCandidate(p, headSha, mem.baseSha, 1)) else None;
        var b := s.batches[id].(branchName := Some(branchName), headSha := Some(headSha));
        Some(s.(batches := s.batches[id := b],
                integration := s.integration.(mem :=
                  mem.(headSha := Some(headSha), candidate := candidate, history := [], branchName := Some(branchName),
                       finishedAt := Some(s.now)))))
  }

  function FinishDryRun(s: State, headSha: Sha): Outcome {
    if !s.integration.Building? || !s.integration.dry || s.integration.mem.status != Running then None
    else
      var mem := s.integration.mem.(headSha := Some(headSha), finishedAt := Some(s.now), status := Verified);
      if !TasksKnown(s, mem.taskIds) then None
      else Some(PutUnseen(s, s.integration.id, mem, ToSubmitted).(integration := s.integration.(mem := mem)))
  }

  function PrepareBatch(s: State): Outcome {
    if !s.integration.Building? || s.integration.mem.status != Running || s.integration.mem.branchName.None? then None
    else
      var mem := s.integration.mem.(status := Prepared);
      if !TasksKnown(s, mem.taskIds) then None
      else Some(PutUnseen(s, s.integration.id, mem, ToBatched).(integration := s.integration.(mem := mem)))
  }

  /** The catch block. It is reached from every phase, the ones after `prepared` included. */
  function FailIntegration(s: State, culprit: Option<TaskId>, maxAttempts: nat): Outcome {
    if !s.integration.Building? then None
    else
      var mem := s.integration.mem.(status := BatchFailed, finishedAt := Some(s.now), branchName := None);
      if !TasksKnown(s, mem.taskIds) then None
      else Some(PutUnseen(s, s.integration.id, mem, IntegrationFailed(culprit, s.integration.dry, maxAttempts))
                  .(integration := Free))
  }

  // ---- Batch locks ----

  function TakeBatchLock(s: State, id: BatchId): Outcome {
    if id in s.views || id !in s.batches then None else Some(s.(views := s.views[id := s.batches[id]]))
  }

  /** A revising process holds both locks, and loses the integration lock no later than this one. */
  function DropBatchLock(s: State, id: BatchId): Outcome {
    Some(s.(views := s.views - {id},
            integration := if s.integration.Revising? && s.integration.id == id then Free else s.integration))
  }

  // ---- Publication ----

  predicate Publishable(b: Batch) {
    b.revision.None? && b.changeRequest.None? && Outstanding(b)
  }

  function PublishUnbound(s: State, id: BatchId): Outcome {
    if !Held(s, id) || s.views[id].revision.Some? || s.views[id].changeRequest.Some? || s.views[id].targetBound then None
    else
      var recut := s.views[id].status == Prepared && s.views[id].localOnly;
      Some(Put(s, id, if recut then s.batches[id].(refreshRequired := true) else s.batches[id]))
  }

  function PublishFailed(s: State, id: BatchId, baseStale: bool): Outcome {
    if !Held(s, id) || !Publishable(s.views[id]) then None
    else Some(Put(s, id, if baseStale then s.batches[id].(refreshRequired := true) else s.batches[id]))
  }

  function AsPublished(b: Batch, url: Option<nat>): Batch {
    b.(status := BatchPublished, refreshRequired := false, refreshClose := None,
       pullRequest := if url.Some? then url else b.pullRequest)
  }

  function PublishBatch(s: State, id: BatchId, url: Option<nat>): Outcome {
    if !Held(s, id) || !Publishable(s.views[id]) || s.views[id].branchName.None? || s.views[id].headSha.None? then None
    else if s.views[id].status == BatchPublished && s.views[id].pullRequest.Some? && s.views[id].refreshRequired then None
    else if !TasksKnown(s, s.batches[id].taskIds) then None
    else Some(PutAll(s, id, AsPublished(s.batches[id], url), ToPublished))
  }

  /** Approval standing and confirmed for the current policy, or no approval needed at all. */
  predicate QueueAllowed(b: Batch, p: Policy) {
    (b.candidate.None? && !p.required)
    || (b.candidate.Some? && p.required && PolicyCurrent(p, b.candidate.value)
        && var c := b.candidate.value;
           c.approval.Some? && c.approval.value.confirmed && !c.approval.value.revocationRequested
           && (c.state == Approved || c.state == Merging))
  }

  function PublishQueueAttempt(s: State, id: BatchId, p: Policy): Outcome {
    if !Held(s, id) then None
    else
      var v := s.views[id];
      if v.revision.Some? || v.changeRequest.Some? || v.status != BatchPublished || v.refreshRequired
         || v.autoMergeEnabled == Some(true) || v.pullRequest.None? || !QueueAllowed(v, p)
      then None
      else Some(Put(s, id, s.batches[id].(autoMergePending := true, autoMergeEnabled := Some(false))))
  }

  function PublishQueueOutcome(s: State, id: BatchId, p: Policy, enabled: bool): Outcome {
    if !Held(s, id) then None
    else
      var v := s.views[id];
      if v.revision.Some? || v.changeRequest.Some? || v.status != BatchPublished || !v.autoMergePending || !QueueAllowed(v, p)
      then None
      else
        var b := s.batches[id];
        Some(Put(s, id,
          if enabled then
            b.(autoMergeEnabled := Some(true), autoMergePending := false,
               candidate := if b.candidate.Some? && b.candidate.value.approval.Some?
                            then Some(b.candidate.value.(state := Merging)) else b.candidate)
          else b.(autoMergeEnabled := Some(false), autoMergePending := true)))
  }

  // ---- Evidence and approval ----

  predicate OpenAtCandidate(pr: PullRequest, c: Candidate) {
    pr.state == Open && pr.head == Some(c.sha)
  }

  function RecordVerification(s: State, id: BatchId, name: string, passed: bool, binding: Binding, p: Policy,
                              pr: PullRequest): Outcome {
    if !Held(s, id) || !p.required || name !in p.verifications then None
    else
      var v := s.views[id];
      if v.revision.Some? || v.status != BatchPublished || v.pullRequest.None? || v.candidate.None? then None
      else if !BindingMatches(v.candidate.value, binding) || !PolicyCurrent(p, v.candidate.value)
              || !OpenAtCandidate(pr, v.candidate.value)
      then None
      else if s.batches[id].candidate.None? then None
      else
        var c := s.batches[id].candidate.value;
        if !BindingMatches(c, binding) || c.state == Approved || c.state == Merging || c.state == Superseded
           || c.state == Abandoned || c.state == CandidateMerged
        then None
        else
          var e := Evidence(name, passed, c.sha, c.baseSha, c.policyRevision);
          Some(Put(s, id, s.batches[id].(candidate := Some(UpsertEvidence(c, e)))))
  }

  predicate Approvable(c: Candidate) {
    c.state == ReadyForApproval || c.state == Approved || c.state == Merging
  }

  predicate TasksSettled(s: State, ids: seq<TaskId>) {
    forall t | t in ids :: t in s.tasks && s.tasks[t].status == Published && !LeaseLive(s.tasks[t], s.now)
  }

  function ApproveBatch(s: State, id: BatchId, binding: Binding, actor: Actor, p: Policy, pr: PullRequest): Outcome {
    if !Held(s, id) || !p.required || (p.authorized != [] && actor !in p.authorized) then None
    else
      var v := s.views[id];
      if v.revision.Some? || v.status != BatchPublished || v.pullRequest.None? || v.candidate.None? then None
      else if !BindingMatches(v.candidate.value, binding) || !PolicyCurrent(p, v.candidate.value)
              || !Approvable(v.candidate.value) || !OpenAtCandidate(pr, v.candidate.value)
              || pr.baseBranch != Some(v.baseBranch) || pr.baseSha != Some(v.candidate.value.baseSha)
              || !ChecksPassed(pr, p.checks) || pr.changesRequested || pr.conflicting
      then None
      else if s.batches[id].candidate.None? then None
      else
        var c := s.batches[id].candidate.value;
        if !BindingMatches(c, binding) || !Approvable(c) || !TasksSettled(s, s.batches[id].taskIds) then None
        else Some(Put(s, id, s.batches[id].(candidate := Some(Approve(c, p, actor)))))
  }

  function ApproveUnbound(s: State, id: BatchId): Outcome {
    if !Held(s, id) || s.views[id].revision.Some? || s.views[id].status != BatchPublished || s.views[id].pullRequest.None?
       || s.views[id].targetBound
    then None
    else Some(Put(s, id, s.batches[id].(refreshRequired := true)))
  }

  /** The last reconciliation of the approving call still showed the approval in force. */
  predicate ApprovalStands(v: Batch) {
    v.revision.None? && v.changeRequest.None? && v.status == BatchPublished && v.candidate.Some?
    && v.candidate.value.approval.Some? && (v.candidate.value.state == Approved || v.candidate.value.state == Merging)
  }

  function ApproveQueueAttempt(s: State, id: BatchId, binding: Binding): Outcome {
    if !Held(s, id) || !ApprovalStands(s.views[id]) || s.views[id].autoMergeEnabled == Some(true) then None
    else if s.batches[id].candidate.None? || !BindingMatches(s.batches[id].candidate.value, binding) then None
    else Some(Put(s, id, s.batches[id].(autoMergePending := true, autoMergeEnabled := Some(false))))
  }

  function ApproveQueueOutcome(s: State, id: BatchId, binding: Binding, enabled: bool): Outcome {
    if !Held(s, id) || !ApprovalStands(s.views[id]) || !s.views[id].autoMergePending then None
    else if s.batches[id].candidate.None? || !BindingMatches(s.batches[id].candidate.value, binding) then None
    else
      var b := s.batches[id];
      Some(Put(s, id,
        if enabled then b.(autoMergeEnabled := Some(true), autoMergePending := false,
                           candidate := Some(b.candidate.value.(state := Merging)))
        else b.(autoMergeEnabled := Some(false), autoMergePending := true)))
  }

  // ---- Change requests ----

  function RequestChanges(s: State, id: BatchId, binding: Binding, pr: PullRequest): Outcome {
    if !Held(s, id) then None
    else
      var v := s.views[id];
      if v.revision.Some? || v.changeRequest.Some? || v.refreshRequired || v.refreshClose.Some? || v.candidate.None?
         || v.status != BatchPublished || v.pullRequest.None?
      then None
      else if !BindingMatches(v.candidate.value, binding) || !OpenAtCandidate(pr, v.candidate.value) then None
      else if s.batches[id].candidate.None? || !BindingMatches(s.batches[id].candidate.value, binding) then None
      else Some(Put(s, id, s.batches[id].(changeRequest := Some(binding))))
  }

  /** Ends a batch that broke an invariant at the forge: it and every listed task fail. */
  function AsViolated(b: Batch, now: Instant): Batch {
    b.(status := BatchFailed, finishedAt := Some(now), autoMergeEnabled := Some(false), autoMergePending := false,
       changeRequest := None,
       candidate := if b.candidate.Some? then Some(Revoked(b.candidate.value, Blocked)) else None)
  }

  function ChangesRecorded(b: Batch): Batch
    requires b.candidate.Some?
  {
    b.(candidate := Some(Revoked(b.candidate.value, ChangesRequested)), autoMergeEnabled := Some(false),
       autoMergePending := false, changeRequest := None)
  }

  /** Finishing a recorded change request; a queue that could not be disabled commits nothing. */
  function CompleteChangeRequest(s: State, id: BatchId, pr: PullRequest): Outcome {
    if !Held(s, id) || s.views[id].revision.Some? || s.views[id].changeRequest.None? then None
    else if s.views[id].candidate.None? || s.views[id].pullRequest.None?
            || !BindingMatches(s.views[id].candidate.value, s.views[id].changeRequest.value)
    then None
    else if pr.state == PullRequestClosed then CloseLocked(s, id, true, true, true, true)
    else if s.batches[id].candidate.None? then None
    else if !OpenAtCandidate(pr, s.views[id].candidate.value) then
      if TasksKnown(s, s.batches[id].taskIds) then Some(PutAll(s, id, AsViolated(s.batches[id], s.now), ToFailed)) else None
    else if s.batches[id].changeRequest.None?
            || !BindingMatches(s.batches[id].candidate.value, s.batches[id].changeRequest.value)
    then None
    else Some(Put(s, id, ChangesRecorded(s.batches[id])))
  }

  // ---- Revision ----

  function ReopenTask(s: State, t: TaskId, id: BatchId, paths: Option<seq<string>>, lease: Lease, p: Policy): Outcome {
    if !p.required || !Held(s, id) || t !in s.tasks then None
    else
      var task, b := s.tasks[t], s.batches[id];
      var expected := OrElse(paths, task.expectedPaths);
      if (task.status != Batched && task.status != Published) || task.batchId != Some(id) then None
      else if b.revision.Some? || b.candidate.None? || b.candidate.value.state == Approved
              || b.candidate.value.state == Merging || b.autoMergeEnabled == Some(true) || b.autoMergePending
      then None
      else if LeaseLive(task, s.now) || expected == [] || !NoLeaseConflict(s, t, expected) then None
      else
        var reopened := task.(expectedPaths := Dedup(expected), lease := Some(lease));
        Some(Put(PutTask(s, t, reopened), id, b.(candidate := Some(Revoked(b.candidate.value, ChangesRequested)))))
  }

  /** Both locks are held and the broker has read the records the revision starts from; a published
      candidate must still be what its pull request offers. */
  function BeginRevision(s: State, id: BatchId, t: TaskId, token: nat, pr: PullRequest): Outcome {
    if !Held(s, id) || !s.integration.Free? || t !in s.tasks then None
    else
      var task, b := s.tasks[t], s.batches[id];
      if (task.status != Batched && task.status != Published) || task.batchId != Some(id)
         || !LeaseVerified(task, token, s.now)
      then None
      else if b.revision.Some? || b.candidate.None? || b.candidate.value.state != ChangesRequested || b.branchName.None?
      then None
      else if b.pullRequest.Some? && !(b.targetBound && OpenAtCandidate(pr, b.candidate.value)) then None
      else Some(s.(integration := Revising(id, t), views := s.views[id := b]))
  }

  /** The batch a revision will install, rebuilt from the record read under the locks. */
  function Rebuilt(b: Batch, p: Policy, headSha: Sha, baseSha: Sha, revision: nat, now: Instant): Batch {
    b.(baseSha := baseSha, headSha := Some(headSha), autoMergeEnabled := None, autoMergePending := false,
       changeRequest := None, refreshRequired := false, refreshClose := None, finishedAt := Some(now), revision := None,
       candidate := Some(MakeCandidate(p, headSha, baseSha, revision)))
  }

  function RecordRevision(s: State, token: nat, headSha: Sha, baseSha: Sha, revised: Receipt, p: Policy): Outcome {
    if !s.integration.Revising? then None
    else
      var id, t := s.integration.id, s.integration.task;
      if id !in s.views || id !in s.batches || t !in s.tasks || !LeaseVerified(s.tasks[t], token, s.now) then None
      else if s.views[id].candidate.None? || s.batches[id].candidate.None? || s.batches[id].revision.Some? then None
      else
        var previous, stored := s.views[id].candidate.value, s.batches[id].candidate.value;
        if stored.sha != previous.sha || stored.state != ChangesRequested then None
        else
          var revision := previous.revision + 1;
          var next := Rebuilt(s.views[id], p, headSha, baseSha, revision, s.now);
          var intent := RevisionIntent(revision, t, previous.sha, headSha, next, revised);
          Some(Put(s, id, s.batches[id].(revision := Some(intent))))
  }

  predicate Finalizable(b: Batch) {
    b.revision.Some? && b.candidate.Some? && b.candidate.value.sha == b.revision.value.previousSha
    && b.candidate.value.state == ChangesRequested
  }

  /** The record that finalising installs. */
  function Finalized(b: Batch): Batch
    requires Finalizable(b)
  {
    b.revision.value.next.(history := b.history + [b.candidate.value.(state := Superseded)], revision := None)
  }

  function RevisedTask(t: Task, intent: RevisionIntent): Task {
    t.(receipt := intent.revised, lease := None)
  }

  function FinalizeRevision(s: State, id: BatchId): Outcome {
    if id !in s.batches || !Finalizable(s.batches[id]) then None
    else
      var intent := s.batches[id].revision.value;
      if intent.taskId !in s.tasks || !TasksKnown(s, intent.next.taskIds) then None
      else
        var task := RevisedTask(s.tasks[intent.taskId], intent);
        Some(PutTask(s, intent.taskId, task).(batches := s.batches[id := Finalized(s.batches[id])]))
  }

  /** The revising process itself, after it moved the branch. */
  function FinishRevision(s: State): Outcome {
    if !s.integration.Revising? || s.integration.id !in s.views then None
    else
      var id := s.integration.id;
      var r := FinalizeRevision(s, id);
      if r.None? then None
      else Some(r.value.(views := r.value.views[id := r.value.batches[id]], integration := Free))
  }

  /** Recovery reads where the branch is and either finishes or forgets the revision. */
  function RecoverRevision(s: State, id: BatchId, branchHead: Sha): Outcome {
    if !s.integration.Recovering? || id !in s.batches || s.batches[id].revision.None? then None
    else if branchHead == s.batches[id].revision.value.candidateSha then FinalizeRevision(s, id)
    else if branchHead == s.batches[id].revision.value.previousSha
    then Some(s.(batches := s.batches[id := s.batches[id].(revision := None)]))
    else None
  }

  // ---- Reconciliation with the forge ----

  datatype SyncAction =
    | NoChange
    | FailBatch
    | StopQueue
    | CloseRejected
    | SuspectQueue
    | StopUnauthorized
    | AdoptCandidate
    | StartRevocation
    | Reconcile
    | MarkStale
    | RecordQueue
    | Complete

  datatype Config = Config(policy: Policy, autoMerge: bool)

  function ExpectedHead(b: Batch): Option<Sha> {
    if b.candidate.Some? then Some(b.candidate.value.sha) else b.headSha
  }

  predicate ExactHead(b: Batch, pr: PullRequest) {
    ExpectedHead(b).Some? && pr.head == ExpectedHead(b)
  }

  predicate ExactBranch(b: Batch, pr: PullRequest) {
    pr.baseBranch == Some(b.baseBranch)
  }

  predicate QueueMayBeLive(b: Batch, pr: PullRequest) {
    b.autoMergeEnabled == Some(true) || b.autoMergePending || pr.autoMerge != Some(false)
  }

  /** The first decision `syncBatchLocked` reaches for a batch with a pull request. */
  function DecideSync(b: Batch, cfg: Config, pr: PullRequest, proven: bool, disabled: bool): SyncAction {
    if ExpectedHead(b).None? || pr.head.None? || pr.baseBranch.None? then NoChange
    else if pr.state == Open && pr.baseSha.None? then NoChange
    else if pr.state == PullRequestMerged && (b.refreshRequired || b.refreshClose.Some?) then FailBatch
    else if pr.state == Open && !cfg.autoMerge && QueueMayBeLive(b, pr) then (if disabled then StopQueue else NoChange)
    else if (!ExactHead(b, pr) || !ExactBranch(b, pr)) && (!cfg.policy.required || pr.state == PullRequestClosed) then FailBatch
    else if pr.state == PullRequestClosed then
      if b.refreshClose.Some? && Some(b.refreshClose.value.pullRequest) == b.pullRequest then NoChange else CloseRejected
    else if pr.state == Open && b.candidate.Some? && b.candidate.value.approval.None? && QueueMayBeLive(b, pr)
    then SuspectQueue
    else DecideCandidate(b, cfg, pr, proven, disabled)
  }

  /** The same function from the candidate rules on. */
  function DecideCandidate(b: Batch, cfg: Config, pr: PullRequest, proven: bool, disabled: bool): SyncAction {
    if cfg.policy.required && b.candidate.None? then
      if pr.state == PullRequestMerged then FailBatch
      else if b.headSha.None? || pr.head != b.headSha || !ExactBranch(b, pr) || pr.baseSha != Some(b.baseSha) then
        (if QueueMayBeLive(b, pr) then SuspectQueue else NoChange)
      else if QueueMayBeLive(b, pr) && !disabled then NoChange
      else AdoptCandidate
    else if b.candidate.Some? && pr.state != PullRequestMerged then
      if ApprovalInvalidated(b, cfg.policy, pr) && !b.candidate.value.approval.value.revocationRequested then StartRevocation
      else if ApprovalInvalidated(b, cfg.policy, pr) && !disabled then NoChange
      else Reconcile
    else if b.candidate.Some? && MergeUnauthorized(b, cfg.policy, pr, proven) then FailBatch
    else DecideMerge(b, cfg, pr, proven, disabled)
  }

  /** And the tail that runs without an approval rule left to apply. */
  function DecideMerge(b: Batch, cfg: Config, pr: PullRequest, proven: bool, disabled: bool): SyncAction {
    if !cfg.policy.required && pr.state == Open && pr.baseSha != Some(b.baseSha) then
      if (b.autoMergeEnabled == Some(true) || b.autoMergePending || cfg.autoMerge) && !disabled then FailBatch else MarkStale
    else if !cfg.policy.required && b.candidate.None? && pr.state == Open && pr.autoMerge.Some?
            && (b.autoMergeEnabled != pr.autoMerge || b.autoMergePending)
    then RecordQueue
    else if !cfg.policy.required && b.candidate.None? && pr.state == PullRequestMerged && pr.baseSha != Some(b.baseSha) && !proven
    then FailBatch
    else if pr.state != PullRequestMerged then NoChange
    else Complete
  }

  predicate ApprovalInvalidated(b: Batch, p: Policy, pr: PullRequest) {
    b.candidate.Some? && b.candidate.value.approval.Some?
    && (b.candidate.value.approval.value.revocationRequested || !p.required || !PolicyCurrent(p, b.candidate.value)
        || !ExactHead(b, pr) || !ExactBranch(b, pr) || pr.baseSha != Some(b.candidate.value.baseSha)
        || pr.changesRequested || pr.conflicting || !ChecksPassed(pr, p.checks))
  }

  predicate MergeUnauthorized(b: Batch, p: Policy, pr: PullRequest, proven: bool)
    requires b.candidate.Some?
  {
    var c := b.candidate.value;
    !p.required || !PolicyCurrent(p, c) || !ExactHead(b, pr) || !ExactBranch(b, pr)
    || !(pr.baseSha == Some(c.baseSha) || proven)
    || c.approval.None? || !c.approval.value.confirmed || c.approval.value.revocationRequested || !ApprovalBound(c)
    || pr.changesRequested || pr.conflicting || !ChecksPassed(pr, p.checks)
  }

  /** What one observation of an unmerged pull request records on the candidate and its batch. */
  function Reconciled(b: Batch, cfg: Config, pr: PullRequest): Batch
    requires b.candidate.Some?
  {
    var c := b.candidate.value;
    var quiet := b.(autoMergeEnabled := Some(false), autoMergePending := false);
    var exactBase := pr.baseSha == Some(c.baseSha);
    if !cfg.policy.required || !PolicyMatches(cfg.policy, c) then
      quiet.(candidate := Some(Revoked(c, Blocked)), refreshRequired := true)
    else if !ExactHead(b, pr) || !ExactBranch(b, pr) then
      quiet.(candidate := Some(Revoked(c, Blocked)), refreshRequired := false, refreshClose := None)
    else if !exactBase then
      quiet.(candidate := Some(Revoked(c, Blocked)), refreshRequired := true)
    else if pr.changesRequested then quiet.(candidate := Some(Revoked(c, ChangesRequested)))
    else if pr.conflicting then quiet.(candidate := Some(Revoked(c, Blocked)))
    else ChecksObserved(b, cfg, pr)
  }

  /** The part that is left when the pull request is exactly the candidate's and nothing objects to it. */
  function ChecksObserved(b: Batch, cfg: Config, pr: PullRequest): Batch
    requires b.candidate.Some?
  {
    var o := Observed(b.candidate.value, cfg.policy, pr);
    var k := ConfirmOrDrop(o);
    var b1 := if o.approval.Some? && k.approval.None? then b.(autoMergeEnabled := Some(false), autoMergePending := false) else b;
    if QueueAuthorized(k, cfg.autoMerge) && pr.autoMerge.Some? then
      b1.(candidate := Some(k.(state := if pr.autoMerge.value then Merging else Approved)),
          autoMergeEnabled := pr.autoMerge, autoMergePending := false)
    else if pr.autoMerge == Some(false) then
      b1.(candidate := Some(k), autoMergeEnabled := Some(false), autoMergePending := false)
    else b1.(candidate := Some(k))
  }

  /** A live queue is put out; a merging candidate is approved again, not merging. */
  function QueueStopped(b: Batch): Batch {
    b.(autoMergeEnabled := Some(false), autoMergePending := false,
       candidate := if b.candidate.Some? && b.candidate.value.approval.Some? && b.candidate.value.state == Merging
                    then Some(b.candidate.value.(state := Approved)) else b.candidate)
  }

  function UnauthorizedQueueStopped(b: Batch): Batch
    requires b.candidate.Some?
  {
    b.(autoMergeEnabled := Some(false), autoMergePending := false, candidate := Some(Recomputed(b.candidate.value)))
  }

  function RevocationStarted(b: Batch): Batch
    requires b.candidate.Some? && b.candidate.value.approval.Some?
  {
    var c := b.candidate.value;
    b.(candidate := Some(c.(approval := Some(c.approval.value.(revocationRequested := true)))))
  }

  predicate SyncGuard(v: Batch) {
    v.revision.None? && v.changeRequest.None? && v.status != BatchMerged && v.pullRequest.Some?
  }

  /** The decisions one call may commit: the first one, and once a suspected queue is known to be
      disabled, the transaction that says so and, for a candidate, the rules after it. */
  predicate SyncDecided(v: Batch, cfg: Config, pr: PullRequest, proven: bool, disabled: bool, action: SyncAction) {
    var first := DecideSync(v, cfg, pr, proven, disabled);
    action == first
    || (first == SuspectQueue && disabled
        && if v.candidate.Some? then action == StopUnauthorized || action == DecideCandidate(v, cfg, pr, proven, disabled)
           else action == StopQueue)
  }

  function SyncBatch(s: State, id: BatchId, cfg: Config, pr: PullRequest, proven: bool, disabled: bool, action: SyncAction): Outcome {
    if !Held(s, id) || !SyncGuard(s.views[id]) || !SyncDecided(s.views[id], cfg, pr, proven, disabled, action) then None
    else CommitSync(s, id, cfg, pr, action)
  }

  function CommitSync(s: State, id: BatchId, cfg: Config, pr: PullRequest, action: SyncAction): Outcome
    requires Held(s, id)
  {
    var b := s.batches[id];
    match action
    case NoChange => None
    case FailBatch =>
      if TasksKnown(s, b.taskIds)
      then Some(PutAll(s, id, AsViolated(b, s.now).(refreshRequired := false, refreshClose := None), ToFailed))
      else None
    case SuspectQueue =>
      if b.candidate.Some? && b.candidate.value.approval.Some? then None
      else Some(Put(s, id, b.(autoMergeEnabled := Some(false), autoMergePending := true)))
    case StopQueue => Some(Put(s, id, QueueStopped(b)))
    case CloseRejected => CloseLocked(s, id, false, true, true, false)
    case StopUnauthorized =>
      if b.candidate.None? then None else Some(Put(s, id, UnauthorizedQueueStopped(b)))
    case AdoptCandidate =>
      if b.headSha.None? then None
      else Some(Put(s, id, b.(candidate := Some(MakeCandidate(cfg.policy, b.headSha.value, b.baseSha, 1)),
                              autoMergeEnabled := Some(false), autoMergePending := false)))
    case StartRevocation =>
      if b.candidate.None? || b.candidate.value.approval.None? then None else Some(Put(s, id, RevocationStarted(b)))
    case Reconcile => if b.candidate.None? then None else Some(Put(s, id, Reconciled(b, cfg, pr)))
    case MarkStale => Some(Put(s, id, b.(autoMergeEnabled := Some(false), autoMergePending := false, refreshRequired := true)))
    case RecordQueue => Some(Put(s, id, b.(autoMergeEnabled := pr.autoMerge, autoMergePending := false)))
    case Complete => MarkMergedLocked(s, id, cfg.policy, s.now)
  }

  /** Branch publication without a pull request: the head was found on the target branch. */
  function SyncLanded(s: State, id: BatchId, p: Policy): Outcome {
    if !Held(s, id) then None
    else
      var v := s.views[id];
      if v.revision.Some? || v.changeRequest.Some? || v.status == BatchMerged || v.pullRequest.Some? || v.headSha.None?
      then None
      else MarkMergedLocked(s, id, p, s.now)
  }

  // ---- Terminal transitions ----

  predicate Reassigned(s: State, id: BatchId, ids: seq<TaskId>) {
    exists t | t in ids :: t in s.tasks && s.tasks[t].batchId.Some? && s.tasks[t].batchId.value != id
  }

  function AsClosed(b: Batch, state: CandidateState, now: Instant): Batch {
    b.(status := Closed, finishedAt := Some(now), autoMergeEnabled := Some(false), autoMergePending := false,
       changeRequest := None, refreshRequired := false, refreshClose := None,
       candidate := if b.candidate.Some? then Some(Revoked(b.candidate.value, state)) else None)
  }

  predicate ClosePermitted(b: Batch, changeRequest: bool, revocation: bool, refreshRequired: bool, refreshClose: bool) {
    b.revision.None? && (b.changeRequest.Some? ==> changeRequest)
    && (b.candidate.Some? && b.candidate.value.approval.Some? && b.candidate.value.approval.value.revocationRequested
        ==> revocation)
    && (b.refreshRequired ==> refreshRequired) && (b.refreshClose.Some? ==> refreshClose)
  }

  function CloseLocked(s: State, id: BatchId, changeRequest: bool, revocation: bool, refreshRequired: bool,
                       refreshClose: bool): Outcome {
    if !Held(s, id) then None
    else
      var b := s.batches[id];
      if !ClosePermitted(b, changeRequest, revocation, refreshRequired, refreshClose) || !TasksKnown(s, b.taskIds)
         || Reassigned(s, id, b.taskIds) || !Outstanding(b)
      then None
      else Some(PutAll(s, id, AsClosed(b, Abandoned, s.now), Pause))
  }

  /** A transition that has begun and that a close may not bypass. */
  predicate Committed(v: Batch) {
    v.changeRequest.Some? || v.refreshRequired || v.refreshClose.Some?
    || (v.candidate.Some? && v.candidate.value.approval.Some? && v.candidate.value.approval.value.revocationRequested)
  }

  /** An operator's close. With a pull request the decision is the reconciler's instead, unless such a
      transition has begun; then the transaction itself decides. */
  function CloseBatch(s: State, id: BatchId): Outcome {
    if !Held(s, id) then None
    else
      var v := s.views[id];
      if !Committed(v) && (v.pullRequest.Some? || v.autoMergeEnabled == Some(true) || v.autoMergePending) then None
      else CloseLocked(s, id, false, false, false, false)
  }

  function AsMerged(b: Batch, at: Instant): Batch {
    b.(status := BatchMerged, finishedAt := Some(at), autoMergeEnabled := Some(false), autoMergePending := false,
       candidate := if b.candidate.Some? then Some(b.candidate.value.(state := CandidateMerged)) else None)
  }

  predicate MergePermitted(b: Batch, p: Policy) {
    b.revision.None? && b.changeRequest.None? && !b.refreshRequired && b.refreshClose.None?
    && (Outstanding(b) || b.status == Closed || b.status == BatchMerged)
    && (b.candidate.Some? || p.required ==>
          b.candidate.Some? && p.required && PolicyCurrent(p, b.candidate.value)
          && var c := b.candidate.value;
             c.approval.Some? && c.approval.value.confirmed && !c.approval.value.revocationRequested && ApprovalBound(c))
  }

  function MarkMergedLocked(s: State, id: BatchId, p: Policy, at: Instant): Outcome {
    if !Held(s, id) then None
    else
      var b := s.batches[id];
      if !MergePermitted(b, p) || !TasksKnown(s, b.taskIds) || Reassigned(s, id, b.taskIds) then None
      else Some(PutAll(s, id, AsMerged(b, at), ToMerged(at)))
  }

  // ---- Refresh ----

  predicate Refreshable(v: Batch) {
    v.revision.None? && v.changeRequest.None? && Outstanding(v)
  }

  function StartRefresh(s: State, id: BatchId, targetBaseSha: Sha, nonce: nat): Outcome {
    if !Held(s, id) || !Refreshable(s.views[id]) then None
    else if targetBaseSha == s.views[id].baseSha && !s.views[id].refreshRequired && s.views[id].refreshClose.None?
            && s.views[id].targetBound
    then None
    else
      var b := s.batches[id];
      var close := if b.pullRequest.None? then b.refreshClose
                   else if b.refreshClose.Some? && Some(b.refreshClose.value.pullRequest) == b.pullRequest
                   then Some(RefreshClose(b.pullRequest.value, targetBaseSha, b.refreshClose.value.nonce))
                   else Some(RefreshClose(b.pullRequest.value, targetBaseSha, nonce));
      Some(Put(s, id, b.(refreshRequired := true, refreshClose := close)))
  }

  predicate Refreshing(v: Batch) {
    Refreshable(v) && v.refreshRequired && (v.pullRequest.Some? ==> v.refreshClose.Some?)
  }

  function QuietRefresh(s: State, id: BatchId): Outcome {
    if !Held(s, id) || !Refreshing(s.views[id]) || s.batches[id].refreshClose != s.views[id].refreshClose then None
    else
      var b := s.batches[id];
      var c := if b.candidate.Some? && b.candidate.value.state == Merging
               then Some(b.candidate.value.(state := Approved)) else b.candidate;
      Some(Put(s, id, b.(autoMergeEnabled := Some(false), autoMergePending := false, candidate := c)))
  }

  function RejectRefresh(s: State, id: BatchId): Outcome {
    if !Held(s, id) || !Refreshing(s.views[id]) then None else CloseLocked(s, id, false, true, true, true)
  }

  function FinishRefresh(s: State, id: BatchId): Outcome {
    if !Held(s, id) || !Refreshing(s.views[id]) || !TasksKnown(s, s.batches[id].taskIds) then None
    else Some(PutAll(s, id, AsClosed(s.batches[id], Superseded, s.now).(branchName := None), Requeue))
  }

  // ---- Housekeeping ----

  function Prune(s: State, cutoff: Instant): Outcome {
    var tasks := Pruning.PrunedTasks(s.tasks, s.batches, cutoff);
    var batches := Pruning.PrunedBatches(s.tasks, s.batches, cutoff);
    Some(s.(tasks := s.tasks - tasks, batches := s.batches - batches))
  }

  function Tick(s: State, to: Instant): Outcome {
    if to < s.now then None else Some(s.(now := to))
  }

  // ---- The machine ----

  datatype Step =
    | SRegister(t: TaskId, priority: int, sha: Sha, paths: seq<string>, deps: seq<TaskId>)
    | SClaim(t: TaskId, sha: Sha, scope: Option<seq<string>>, depends: Option<seq<TaskId>>, urgency: Option<int>, lease: Lease)
    | SHeartbeat(t: TaskId, token: nat, expiresAt: Instant)
    | SExtend(t: TaskId, paths: seq<string>, token: nat)
    | SRelease(t: TaskId, key: Option<nat>, force: bool)
    | SCancel(t: TaskId, key: Option<nat>, force: bool)
    | SRetry(t: TaskId, key: Option<nat>)
    | SSubmit(t: TaskId, token: nat, receipt: Receipt, requireDependencies: bool)
    | STakeIntegration
    | SDropIntegration
    | SRecoverRunning(ids: seq<BatchId>)
    | SCheckOutstanding(force: bool, dry: bool)
    | SStart(id: BatchId, plan: seq<Task>, branch: nat, sha: Sha, bound: bool, local: bool)
    | SRecordBranch(branch: nat, sha: Sha, policy: Policy)
    | SFinishDryRun(sha: Sha)
    | SPrepare
    | SFailIntegration(culprit: Option<TaskId>, maxAttempts: nat)
    | STakeBatch(id: BatchId)
    | SDropBatch(id: BatchId)
    | SPublishUnbound(id: BatchId)
    | SPublishFailed(id: BatchId, stale: bool)
    | SPublish(id: BatchId, url: Option<nat>)
    | SPublishQueueAttempt(id: BatchId, policy: Policy)
    | SPublishQueueOutcome(id: BatchId, policy: Policy, enabled: bool)
    | SVerify(id: BatchId, name: string, passed: bool, binding: Binding, policy: Policy, pr: PullRequest)
    | SApprove(id: BatchId, binding: Binding, actor: Actor, policy: Policy, pr: PullRequest)
    | SApproveUnbound(id: BatchId)
    | SApproveQueueAttempt(id: BatchId, binding: Binding)
    | SApproveQueueOutcome(id: BatchId, binding: Binding, enabled: bool)
    | SRequestChanges(id: BatchId, binding: Binding, pr: PullRequest)
    | SCompleteChanges(id: BatchId, pr: PullRequest)
    | SReopen(t: TaskId, id: BatchId, scope: Option<seq<string>>, lease: Lease, policy: Policy)
    | SBeginRevision(id: BatchId, t: TaskId, token: nat, pr: PullRequest)
    | SRecordRevision(token: nat, head: Sha, base: Sha, receipt: Receipt, policy: Policy)
    | SFinishRevision
    | SRecoverRevision(id: BatchId, branchHead: Sha)
    | SSync(id: BatchId, config: Config, pr: PullRequest, proven: bool, disabled: bool, action: SyncAction)
    | SSyncLanded(id: BatchId, policy: Policy)
    | SClose(id: BatchId)
    | SMarkMerged(id: BatchId, policy: Policy, at: Instant)
    | SStartRefresh(id: BatchId, target: Sha, nonce: nat)
    | SQuietRefresh(id: BatchId)
    | SRejectRefresh(id: BatchId)
    | SFinishRefresh(id: BatchId)
    | SPrune(cutoff: Instant)
    | STick(to: Instant)

  /** What workers do, without a lock. */
  predicate WorkerStep(step: Step) {
    step.SRegister? || step.SClaim? || step.SHeartbeat? || step.SExtend? || step.SRelease? || step.SCancel?
    || step.SRetry? || step.SSubmit?
  }

  /** The state after a step, or nothing when the transaction refuses and writes nothing. */
  function Apply(s: State, step: Step): Outcome {
    match step
    case SRegister(t, priority, sha, paths, deps) => RegisterTask(s, t, priority, sha, paths, deps)
    case SClaim(t, sha, scope, depends, urgency, lease) => ClaimTask(s, t, sha, scope, depends, urgency, lease)
    case SHeartbeat(t, token, expiresAt) => Heartbeat(s, t, token, expiresAt)
    case SExtend(t, paths, token) => ExtendTask(s, t, paths, token)
    case SRelease(t, key, force) => ReleaseTask(s, t, key, force)
    case SCancel(t, key, force) => CancelTask(s, t, key, force)
    case SRetry(t, key) => RetryTask(s, t, key)
    case SSubmit(t, token, receipt, requireDependencies) => SubmitTask(s, t, token, receipt, requireDependencies)
    case STakeIntegration => TakeIntegrationLock(s)
    case SDropIntegration => DropIntegrationLock(s)
    case SRecoverRunning(ids) => RecoverRunning(s, ids)
    case SCheckOutstanding(force, dry) => CheckOutstanding(s, force, dry)
    case SStart(id, plan, branch, sha, bound, local) => StartBatch(s, id, plan, branch, sha, bound, local)
    case SRecordBranch(branch, sha, policy) => RecordBranch(s, branch, sha, policy)
    case SFinishDryRun(sha) => FinishDryRun(s, sha)
    case SPrepare => PrepareBatch(s)
    case SFailIntegration(culprit, maxAttempts) => FailIntegration(s, culprit, maxAttempts)
    case STakeBatch(id) => TakeBatchLock(s, id)
    case SDropBatch(id) => DropBatchLock(s, id)
    case SPublishUnbound(id) => PublishUnbound(s, id)
    case SPublishFailed(id, stale) => PublishFailed(s, id, stale)
    case SPublish(id, url) => PublishBatch(s, id, url)
    case SPublishQueueAttempt(id, policy) => PublishQueueAttempt(s, id, policy)
    case SPublishQueueOutcome(id, policy, enabled) => PublishQueueOutcome(s, id, policy, enabled)
    case SVerify(id, name, passed, binding, policy, pr) => RecordVerification(s, id, name, passed, binding, policy, pr)
    case SApprove(id, binding, actor, policy, pr) => ApproveBatch(s, id, binding, actor, policy, pr)
    case SApproveUnbound(id) => ApproveUnbound(s, id)
    case SApproveQueueAttempt(id, binding) => ApproveQueueAttempt(s, id, binding)
    case SApproveQueueOutcome(id, binding, enabled) => ApproveQueueOutcome(s, id, binding, enabled)
    case SRequestChanges(id, binding, pr) => RequestChanges(s, id, binding, pr)
    case SCompleteChanges(id, pr) => CompleteChangeRequest(s, id, pr)
    case SReopen(t, id, scope, lease, policy) => ReopenTask(s, t, id, scope, lease, policy)
    case SBeginRevision(id, t, token, pr) => BeginRevision(s, id, t, token, pr)
    case SRecordRevision(token, head, base, receipt, policy) => RecordRevision(s, token, head, base, receipt, policy)
    case SFinishRevision => FinishRevision(s)
    case SRecoverRevision(id, branchHead) => RecoverRevision(s, id, branchHead)
    case SSync(id, config, pr, proven, disabled, action) => SyncBatch(s, id, config, pr, proven, disabled, action)
    case SSyncLanded(id, policy) => SyncLanded(s, id, policy)
    case SClose(id) => CloseBatch(s, id)
    case SMarkMerged(id, policy, at) => MarkMergedLocked(s, id, policy, at)
    case SStartRefresh(id, target, nonce) => StartRefresh(s, id, target, nonce)
    case SQuietRefresh(id) => QuietRefresh(s, id)
    case SRejectRefresh(id) => RejectRefresh(s, id)
    case SFinishRefresh(id) => FinishRefresh(s, id)
    case SPrune(cutoff) => Prune(s, cutoff)
    case STick(to) => Tick(s, to)
  }

  function Initial(serialized: seq<string>): State {
    State(map[], map[], map[], Free, serialized, 0)
  }

  /** A run visits `states`, taking `steps[i]` from `states[i]` to `states[i + 1]`. */
  ghost predicate Run(serialized: seq<string>, states: seq<State>, steps: seq<Step>) {
    |states| == |steps| + 1 && states[0] == Initial(serialized)
    && forall i | 0 <= i < |steps| :: Apply(states[i], steps[i]) == Some(states[i + 1])
  }

  lemma StepOf(serialized: seq<string>, states: seq<State>, steps: seq<Step>, i: nat)
    requires Run(serialized, states, steps) && i < |steps|
    ensures Apply(states[i], steps[i]) == Some(states[i + 1])
  {
  }
}
