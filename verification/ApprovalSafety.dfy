/**
 A batch that has a candidate is merged only on a confirmed, unrevoked approval of exactly that
 candidate, with every required verification passed on it, whatever the forge answers.
 */
module ApprovalSafety {
  import opened Common
  import opened Records
  import opened CandidateLifecycle
  import opened Coordinate
  import opened BatchRecords
  import opened Coherence
  import MergeProof

  // ---- The step that merges ----

  ghost predicate MergedIn(s: State, id: BatchId) {
    id in s.batches && s.batches[id].status == BatchMerged
  }

  /** The policy in force at the steps that can merge. */
  function PolicyOf(step: Step): Option<Policy> {
    match step
    case SSync(id, config, pr, proven, disabled, action) => Some(config.policy)
    case SSyncLanded(id, policy) => Some(policy)
    case SMarkMerged(id, policy, at) => Some(policy)
    case _ => None
  }

  /** The forge reported the pull request merged, at exactly this head into exactly this branch, with
      the base exact or the landing proven. */
  predicate ForgeAgrees(b: Batch, pr: PullRequest, proven: bool) {
    && pr.state == PullRequestMerged && pr.baseBranch == Some(b.baseBranch)
    && pr.head.Some? && pr.head == (if b.candidate.Some? then Some(b.candidate.value.sha) else b.headSha)
    && (pr.baseSha == Some(if b.candidate.Some? then b.candidate.value.baseSha else b.baseSha) || proven)
  }

  /** The policy in force is the one the candidate was made under, and lets the actor approve. */
  predicate PolicyAgrees(p: Policy, c: Candidate) {
    && p.required && c.policyRevision == p.revision
    && |c.required| == |p.verifications| + |p.checks|
    && (forall i | 0 <= i < |c.required| ::
          c.required[i] in p.verifications || exists k | 0 <= k < |p.checks| :: c.required[i] == "github-check:" + p.checks[k])
    && (c.approval.Some? ==> p.authorized == [] || c.approval.value.actor in p.authorized)
  }

  lemma RequiredAre(p: Policy, name: string)
    ensures name in RequiredEvidence(p) <==>
              name in p.verifications || exists k | 0 <= k < |p.checks| :: name == "github-check:" + p.checks[k]
    ensures |RequiredEvidence(p)| == |p.verifications| + |p.checks|
  {
    var checks := seq(|p.checks|, i requires 0 <= i < |p.checks| => CheckName(p.checks[i]));
    assert RequiredEvidence(p) == p.verifications + checks;
    if k :| 0 <= k < |p.checks| && name == "github-check:" + p.checks[k] { assert checks[k] == name; }
  }

  lemma CurrentAgrees(p: Policy, c: Candidate)
    requires p.required
    ensures PolicyCurrent(p, c) <==> PolicyAgrees(p, c)
  {
    RequiredAre(p, "");
    forall i | 0 <= i < |c.required|
      ensures c.required[i] in RequiredEvidence(p) <==>
                c.required[i] in p.verifications || exists k | 0 <= k < |p.checks| :: c.required[i] == "github-check:" + p.checks[k]
    {
      RequiredAre(p, c.required[i]);
    }
  }

  /** What the step that merges a batch rested on. */
  ghost predicate MergeRestsOnApproval(s: State, t: State, step: Step, id: BatchId)
    requires id in t.batches
  {
    && id in s.batches && PolicyOf(step).Some?
    && t.batches[id].candidate.Some? == s.batches[id].candidate.Some?
    && (if s.batches[id].candidate.Some? then
          var c := s.batches[id].candidate.value;
          Authorized(c) && t.batches[id].candidate == Some(c.(state := CandidateMerged))
          && PolicyAgrees(PolicyOf(step).value, c)
        else !PolicyOf(step).value.required)
    && (step.SSync? ==> ForgeAgrees(s.batches[id], step.pr, step.proven))
  }

  /** Completion is decided only on a merged pull request that is exactly the batch's own. */
  lemma CompleteMeansLanded(b: Batch, cfg: Config, pr: PullRequest, proven: bool, disabled: bool)
    requires SyncDecided(b, cfg, pr, proven, disabled, Complete)
    ensures ForgeAgrees(b, pr, proven)
  {
  }

  lemma SyncedIsDecided(s: State, id: BatchId, cfg: Config, pr: PullRequest, proven: bool, disabled: bool, action: SyncAction)
    requires SyncBatch(s, id, cfg, pr, proven, disabled, action).Some?
    ensures Held(s, id) && SyncGuard(s.views[id]) && SyncDecided(s.views[id], cfg, pr, proven, disabled, action)
  {
  }

  lemma SyncedFromForge(s: State, id: BatchId, cfg: Config, pr: PullRequest, proven: bool, disabled: bool)
    requires RecordsOk(s) && SyncBatch(s, id, cfg, pr, proven, disabled, Complete).Some?
    ensures ForgeAgrees(s.batches[id], pr, proven)
  {
    SyncedIsDecided(s, id, cfg, pr, proven, disabled, Complete);
    SyncedIsAssembled(s.views[id]);
    ViewIsStored(s, id);
    CompleteMeansLanded(s.views[id], cfg, pr, proven, disabled);
  }

  /** With `proven` the answer of the proof in the commit graph, what was merged is the candidate on its
      exact base, or one of the four ways a forge lands it. */
  lemma SyncedMergeLanded(s: State, t: State, step: Step, id: BatchId, g: MergeProof.Graph, merge: Option<Sha>, target: Sha)
    requires id in t.batches && MergeRestsOnApproval(s, t, step, id) && step.SSync? && s.batches[id].candidate.Some?
    requires MergeProof.WellFormed(g) && target in g.parents
    requires s.batches[id].candidate.value.baseSha in g.parents && s.batches[id].candidate.value.sha in g.parents
    requires var c := s.batches[id].candidate.value;
             step.proven == MergeProof.ProveMerged(g, c.baseSha, c.sha, merge, target)
    ensures var c := s.batches[id].candidate.value;
            step.pr.head == Some(c.sha)
            && (step.pr.baseSha == Some(c.baseSha)
                || (MergeProof.Landed(g, c.baseSha, c.sha, merge, target)
                    && (merge.value == c.sha || g.parents[merge.value] == [c.baseSha]
                        || g.parents[merge.value] == [c.baseSha, c.sha]
                        || MergeProof.SomeRebase(g, c.baseSha, c.sha, merge.value))))
  {
    var c := s.batches[id].candidate.value;
    MergeProof.ProvenExactlyWhenLanded(g, c.baseSha, c.sha, merge, target);
  }

  lemma CompletionRests(s: State, t: State, step: Step, id: BatchId)
    requires RecordsOk(s) && PolicyOf(step).Some? && Held(s, id) && MergePermitted(s.batches[id], PolicyOf(step).value)
    requires exists at :: t.batches == s.batches[id := AsMerged(s.batches[id], at)]
    requires step.SSync? ==> ForgeAgrees(s.batches[id], step.pr, step.proven)
    ensures id in t.batches && MergeRestsOnApproval(s, t, step, id)
  {
    assert !Dead(s.batches[id]);
    if s.batches[id].candidate.Some? {
      SoundApprovalAuthorizes(s.batches[id].candidate.value);
      CurrentAgrees(PolicyOf(step).value, s.batches[id].candidate.value);
    }
  }

  /** The transactions that can write the status, which are two. */
  predicate Completes(step: Step) {
    step.SSyncLanded? || step.SMarkMerged? || (step.SSync? && step.action == Complete)
  }

  // ---- Every other step leaves merged batches as they are ----

  /** The candidate of the batch, if that is merged, is final. */
  ghost predicate SettledIn(s: State, id: BatchId) {
    MergedIn(s, id) && s.batches[id].candidate.Some? ==> s.batches[id].candidate.value.state == CandidateMerged
  }

  /** Whatever is merged after the step was merged before it, with the same record. */
  ghost predicate MergesNothing(s: State, o: Outcome) {
    o.Some? ==> forall id | MergedIn(o.value, id) :: MergedIn(s, id) && o.value.batches[id] == s.batches[id]
  }

  /** A write of one record that leaves it alone or leaves it unmerged. */
  lemma OneWriteMergesNothing(s: State, o: Outcome, id: BatchId)
    requires o.Some? ==> id in s.batches && id in o.value.batches && o.value.batches == s.batches[id := o.value.batches[id]]
                         && (o.value.batches[id] == s.batches[id] || o.value.batches[id].status != BatchMerged)
    ensures MergesNothing(s, o)
  {
  }

  lemma AssemblyMergesNothing(s: State, step: Step)
    requires RecordsOk(s) && AssemblyStep(step)
    ensures MergesNothing(s, Apply(s, step))
  {
    if step.SStart? { StartMergesNothing(s, step.id, step.plan, step.branch, step.sha, step.bound, step.local); }
    else if step.SFailIntegration? { FailMergesNothing(s, step.culprit, step.maxAttempts); }
    else if s.integration.Building? { OneWriteMergesNothing(s, Apply(s, step), s.integration.id); }
  }

  lemma StartMergesNothing(s: State, id: BatchId, plan: seq<Task>, branch: nat, sha: Sha, bound: bool, local: bool)
    ensures MergesNothing(s, StartBatch(s, id, plan, branch, sha, bound, local))
  {
  }

  lemma FailMergesNothing(s: State, culprit: Option<TaskId>, maxAttempts: nat)
    ensures MergesNothing(s, FailIntegration(s, culprit, maxAttempts))
  {
  }

  lemma {:induction false} RecoveryMergesNothing(s: State, ids: seq<BatchId>)
    ensures MergesNothing(s, Some(RecoverEach(s, ids)))
    decreases |ids|
  {
    if ids != [] { RecoveryMergesNothing(RecoverBatch(s, ids[0]), ids[1..]); }
  }

  /** If this batch is merged after the step it was before, with the same record. */
  ghost predicate LeavesMerged(s: State, o: Outcome, id: BatchId) {
    o.Some? && MergedIn(o.value, id) ==> MergedIn(s, id) && o.value.batches[id] == s.batches[id]
  }

  /** A write of one record, which is not this one unless it leaves that unmerged. */
  lemma OneWriteLeaves(s: State, o: Outcome, at: BatchId, id: BatchId)
    requires o.Some? ==> at in s.batches && at in o.value.batches && o.value.batches == s.batches[at := o.value.batches[at]]
                         && (at == id ==> !MergedIn(o.value, id))
    ensures LeavesMerged(s, o, id)
  {
  }

  /** A pending revision belongs to a candidate that was sent back, not merged. */
  lemma PendingIsNotMerged(s: State, id: BatchId)
    requires RecordsOk(s) && id in s.batches && s.batches[id].revision.Some? && SettledIn(s, id)
    ensures !MergedIn(s, id)
  {
    assert IntentFits(s.batches[id]);
  }

  lemma FinishRevisionLeaves(s: State, id: BatchId)
    requires RecordsOk(s) && SettledIn(s, id)
    ensures LeavesMerged(s, FinishRevision(s), id)
  {
    if FinishRevision(s).Some? {
      if s.integration.id == id { PendingIsNotMerged(s, id); }
      OneWriteLeaves(s, FinishRevision(s), s.integration.id, id);
    }
  }

  lemma RecoverRevisionLeaves(s: State, at: BatchId, branchHead: Sha, id: BatchId)
    requires RecordsOk(s) && SettledIn(s, id)
    ensures LeavesMerged(s, RecoverRevision(s, at, branchHead), id)
  {
    if RecoverRevision(s, at, branchHead).Some? {
      if at == id { PendingIsNotMerged(s, id); }
      OneWriteLeaves(s, RecoverRevision(s, at, branchHead), at, id);
    }
  }

  lemma LockStepMergesNothing(s: State, step: Step)
    requires step.STakeIntegration? || step.SDropIntegration? || step.SCheckOutstanding? || step.SBeginRevision?
    ensures MergesNothing(s, Apply(s, step))
  {
  }

  lemma HousekeepingMergesNothing(s: State, step: Step)
    requires HousekeepingStep(step)
    ensures MergesNothing(s, Apply(s, step))
  {
  }

  /** What a holder of a batch lock acts on, if its view is one of an unmerged batch, is unmerged. */
  lemma ViewedIsUnmerged(s: State, id: BatchId)
    requires RecordsOk(s) && Held(s, id) && Usable(s.views[id]) && s.views[id].status != BatchMerged
    ensures !MergedIn(s, id)
  {
    ViewIsStored(s, id);
  }

  lemma UnboundMergesNothing(s: State, id: BatchId)
    requires RecordsOk(s)
    ensures MergesNothing(s, PublishUnbound(s, id)) && MergesNothing(s, ApproveUnbound(s, id))
  {
    if Held(s, id) && Usable(s.views[id]) && s.views[id].status != BatchMerged { ViewedIsUnmerged(s, id); }
    OneWriteMergesNothing(s, PublishUnbound(s, id), id);
    OneWriteMergesNothing(s, ApproveUnbound(s, id), id);
  }

  lemma FailedMergesNothing(s: State, id: BatchId, stale: bool)
    requires RecordsOk(s)
    ensures MergesNothing(s, PublishFailed(s, id, stale))
  {
    if PublishFailed(s, id, stale).Some? { ViewedIsUnmerged(s, id); }
    OneWriteMergesNothing(s, PublishFailed(s, id, stale), id);
  }

  lemma PublishMergesNothing(s: State, id: BatchId, url: Option<nat>)
    ensures MergesNothing(s, PublishBatch(s, id, url))
  {
    OneWriteMergesNothing(s, PublishBatch(s, id, url), id);
  }

  lemma QueueMergesNothing(s: State, id: BatchId, p: Policy, enabled: bool)
    requires RecordsOk(s)
    ensures MergesNothing(s, PublishQueueAttempt(s, id, p)) && MergesNothing(s, PublishQueueOutcome(s, id, p, enabled))
  {
    if Held(s, id) && Usable(s.views[id]) && s.views[id].status != BatchMerged { ViewedIsUnmerged(s, id); }
    OneWriteMergesNothing(s, PublishQueueAttempt(s, id, p), id);
    OneWriteMergesNothing(s, PublishQueueOutcome(s, id, p, enabled), id);
  }

  lemma PublishStepsMergeNothing(s: State, step: Step)
    requires RecordsOk(s) && PublishStep(step)
    ensures MergesNothing(s, Apply(s, step))
  {
    match step
    case SPublishUnbound(id) => UnboundMergesNothing(s, id);
    case SPublishFailed(id, stale) => FailedMergesNothing(s, id, stale);
    case SPublish(id, url) => PublishMergesNothing(s, id, url);
    case SPublishQueueAttempt(id, policy) => QueueMergesNothing(s, id, policy, false);
    case SPublishQueueOutcome(id, policy, enabled) => QueueMergesNothing(s, id, policy, enabled);
  }

  lemma VerificationMergesNothing(s: State, id: BatchId, name: string, passed: bool, binding: Binding, p: Policy, pr: PullRequest)
    requires RecordsOk(s)
    ensures MergesNothing(s, RecordVerification(s, id, name, passed, binding, p, pr))
  {
    var o := RecordVerification(s, id, name, passed, binding, p, pr);
    if o.Some? { ViewedIsUnmerged(s, id); }
    OneWriteMergesNothing(s, o, id);
  }

  lemma ApprovalMergesNothing(s: State, id: BatchId, binding: Binding, actor: Actor, p: Policy, pr: PullRequest)
    requires RecordsOk(s)
    ensures MergesNothing(s, ApproveBatch(s, id, binding, actor, p, pr))
  {
    var o := ApproveBatch(s, id, binding, actor, p, pr);
    if o.Some? { ViewedIsUnmerged(s, id); }
    OneWriteMergesNothing(s, o, id);
  }

  lemma ApprovalQueueMergesNothing(s: State, id: BatchId, binding: Binding, enabled: bool)
    requires RecordsOk(s)
    ensures MergesNothing(s, ApproveQueueAttempt(s, id, binding)) && MergesNothing(s, ApproveQueueOutcome(s, id, binding, enabled))
  {
    if Held(s, id) && ApprovalStands(s.views[id]) { ViewedIsUnmerged(s, id); }
    OneWriteMergesNothing(s, ApproveQueueAttempt(s, id, binding), id);
    OneWriteMergesNothing(s, ApproveQueueOutcome(s, id, binding, enabled), id);
  }

  lemma RequestMergesNothing(s: State, id: BatchId, binding: Binding, pr: PullRequest)
    requires RecordsOk(s)
    ensures MergesNothing(s, RequestChanges(s, id, binding, pr))
  {
    if RequestChanges(s, id, binding, pr).Some? { ViewedIsUnmerged(s, id); }
    OneWriteMergesNothing(s, RequestChanges(s, id, binding, pr), id);
  }

  lemma EvidenceStepsMergeNothing(s: State, step: Step)
    requires RecordsOk(s) && (step.SVerify? || step.SApprove? || step.SApproveUnbound?)
    ensures MergesNothing(s, Apply(s, step))
  {
    match step
    case SVerify(id, name, passed, binding, policy, pr) => VerificationMergesNothing(s, id, name, passed, binding, policy, pr);
    case SApprove(id, binding, actor, policy, pr) => ApprovalMergesNothing(s, id, binding, actor, policy, pr);
    case SApproveUnbound(id) => UnboundMergesNothing(s, id);
  }

  lemma ApprovalQueueStepsMergeNothing(s: State, step: Step)
    requires RecordsOk(s) && (step.SApproveQueueAttempt? || step.SApproveQueueOutcome?)
    ensures MergesNothing(s, Apply(s, step))
  {
    match step
    case SApproveQueueAttempt(id, binding) => ApprovalQueueMergesNothing(s, id, binding, false);
    case SApproveQueueOutcome(id, binding, enabled) => ApprovalQueueMergesNothing(s, id, binding, enabled);
  }

  lemma ChangeStepsMergeNothing(s: State, step: Step)
    requires RecordsOk(s)
    requires step.SApproveQueueAttempt? || step.SApproveQueueOutcome? || step.SRequestChanges? || step.SCompleteChanges?
    ensures MergesNothing(s, Apply(s, step))
  {
    if step.SRequestChanges? { RequestMergesNothing(s, step.id, step.binding, step.pr); }
    else if step.SCompleteChanges? { CompleteChangesMergeNothing(s, step.id, step.pr); }
    else { ApprovalQueueStepsMergeNothing(s, step); }
  }

  lemma StartRefreshMergesNothing(s: State, id: BatchId, target: Sha, nonce: nat)
    requires RecordsOk(s)
    ensures MergesNothing(s, StartRefresh(s, id, target, nonce))
  {
    if StartRefresh(s, id, target, nonce).Some? {
      ViewIsStored(s, id);
      OneWriteMergesNothing(s, StartRefresh(s, id, target, nonce), id);
    }
  }

  lemma QuietRefreshMergesNothing(s: State, id: BatchId)
    requires RecordsOk(s)
    ensures MergesNothing(s, QuietRefresh(s, id))
  {
    if QuietRefresh(s, id).Some? {
      ViewIsStored(s, id);
      OneWriteMergesNothing(s, QuietRefresh(s, id), id);
    }
  }

  lemma FinishRefreshMergesNothing(s: State, id: BatchId)
    ensures MergesNothing(s, FinishRefresh(s, id))
  {
    OneWriteMergesNothing(s, FinishRefresh(s, id), id);
  }

  /** A task of this batch is reopened while the batch is merged, and with it the approval dropped that
      the merge rested on. */
  ghost predicate ReopensMerged(s: State, step: Step, id: BatchId) {
    step.SReopen? && step.id == id && MergedIn(s, id) && Apply(s, step).Some?
  }

  lemma ReopenLeaves(s: State, t: TaskId, at: BatchId, scope: Option<seq<string>>, lease: Lease, p: Policy, id: BatchId)
    requires at == id ==> !MergedIn(s, id)
    ensures LeavesMerged(s, ReopenTask(s, t, at, scope, lease, p), id)
  {
  }

  /** Where tasks and batches agree only a task of an outstanding batch can be reopened. */
  lemma CoherentReopensNoMerged(s: State, step: Step, id: BatchId)
    requires Coherent(s)
    ensures !ReopensMerged(s, step, id)
  {
    if step.SReopen? && step.t in s.tasks { assert TaskCoherent(s, step.t); }
  }

  lemma RecordRevisionLeaves(s: State, token: nat, head: Sha, base: Sha, receipt: Receipt, p: Policy, id: BatchId)
    requires SettledIn(s, id)
    ensures LeavesMerged(s, RecordRevision(s, token, head, base, receipt, p), id)
  {
    var o := RecordRevision(s, token, head, base, receipt, p);
    if o.Some? { OneWriteLeaves(s, o, s.integration.id, id); }
  }

  lemma CloseMergesNothing(s: State, id: BatchId, changeRequest: bool, revocation: bool, refreshRequired: bool, refreshClose: bool)
    ensures MergesNothing(s, CloseLocked(s, id, changeRequest, revocation, refreshRequired, refreshClose))
  {
  }

  lemma CloseStepsMergeNothing(s: State, step: Step)
    requires step.SClose? || step.SRejectRefresh?
    ensures MergesNothing(s, Apply(s, step))
  {
    CloseMergesNothing(s, step.id, false, false, false, false);
    CloseMergesNothing(s, step.id, false, true, true, true);
  }

  lemma CompleteChangesMergeNothing(s: State, id: BatchId, pr: PullRequest)
    requires RecordsOk(s)
    ensures MergesNothing(s, CompleteChangeRequest(s, id, pr))
  {
    if CompleteChangeRequest(s, id, pr).Some? {
      ViewIsStored(s, id);
      CloseMergesNothing(s, id, true, true, true, true);
      if pr.state != PullRequestClosed { OneWriteMergesNothing(s, CompleteChangeRequest(s, id, pr), id); }
    }
  }

  lemma SyncMergesNothing(s: State, id: BatchId, cfg: Config, pr: PullRequest, action: SyncAction)
    requires Held(s, id) && action != Complete && s.batches[id].status != BatchMerged
    ensures MergesNothing(s, CommitSync(s, id, cfg, pr, action))
  {
    if action == CloseRejected {
      CloseMergesNothing(s, id, false, true, true, false);
    } else {
      if s.batches[id].candidate.Some? { ReconciledShape(s.batches[id], cfg, pr); }
      OneWriteMergesNothing(s, CommitSync(s, id, cfg, pr, action), id);
    }
  }

  lemma SyncStepMergesNothing(s: State, step: Step)
    requires RecordsOk(s) && step.SSync? && step.action != Complete
    ensures MergesNothing(s, Apply(s, step))
  {
    if Apply(s, step).Some? {
      SyncedIsAssembled(s.views[step.id]);
      ViewIsStored(s, step.id);
      SyncMergesNothing(s, step.id, step.config, step.pr, step.action);
    }
  }

  lemma IntegrationMergesNothing(s: State, step: Step)
    requires RecordsOk(s) && IntegrationStep(step) && !Finalizes(step)
    ensures MergesNothing(s, Apply(s, step))
  {
    if AssemblyStep(step) { AssemblyMergesNothing(s, step); }
    else if step.SRecoverRunning? { RecoveryMergesNothing(s, step.ids); }
    else { LockStepMergesNothing(s, step); }
  }

  predicate Finalizes(step: Step) {
    step.SFinishRevision? || step.SRecoverRevision?
  }

  /** Steps that may rewrite a candidate without changing its batch's status. */
  predicate Rewrites(step: Step) {
    Finalizes(step) || step.SReopen? || step.SRecordRevision?
  }

  predicate RefreshStep(step: Step) {
    step.SStartRefresh? || step.SQuietRefresh? || step.SFinishRefresh?
  }

  lemma RefreshStepsMergeNothing(s: State, step: Step)
    requires RecordsOk(s) && RefreshStep(step)
    ensures MergesNothing(s, Apply(s, step))
  {
    match step
    case SStartRefresh(id, target, nonce) => StartRefreshMergesNothing(s, id, target, nonce);
    case SQuietRefresh(id) => QuietRefreshMergesNothing(s, id);
    case SFinishRefresh(id) => FinishRefreshMergesNothing(s, id);
  }

  lemma ClosingStepMergesNothing(s: State, step: Step)
    requires RecordsOk(s) && !Completes(step) && (step.SSync? || step.SClose? || step.SRejectRefresh?)
    ensures MergesNothing(s, Apply(s, step))
  {
    if step.SSync? { SyncStepMergesNothing(s, step); } else { CloseStepsMergeNothing(s, step); }
  }

  lemma LockedStepMergesNothing(s: State, step: Step)
    requires RecordsOk(s) && LockedBatch(s, step).Some? && !Completes(step) && !step.SReopen? && !step.SRecordRevision?
    ensures MergesNothing(s, Apply(s, step))
  {
    if PublishStep(step) { PublishStepsMergeNothing(s, step); }
    else if step.SVerify? || step.SApprove? || step.SApproveUnbound? { EvidenceStepsMergeNothing(s, step); }
    else if ApprovalStep(step) { ChangeStepsMergeNothing(s, step); }
    else if RefreshStep(step) { RefreshStepsMergeNothing(s, step); }
    else { ClosingStepMergesNothing(s, step); }
  }

  lemma PlainStepMergesNothing(s: State, step: Step)
    requires RecordsOk(s) && !Completes(step) && !Rewrites(step)
    ensures MergesNothing(s, Apply(s, step))
  {
    if WorkerStep(step) { WorkerStepKeeps(s, step); }
    else if IntegrationStep(step) { IntegrationMergesNothing(s, step); }
    else if HousekeepingStep(step) { HousekeepingMergesNothing(s, step); }
    else if LockedBatch(s, step).Some? { LockedStepMergesNothing(s, step); }
  }

  lemma RewriteLeaves(s: State, step: Step, id: BatchId)
    requires RecordsOk(s) && SettledIn(s, id) && Rewrites(step) && !ReopensMerged(s, step, id)
    ensures LeavesMerged(s, Apply(s, step), id)
  {
    if step.SFinishRevision? { FinishRevisionLeaves(s, id); }
    else if step.SRecoverRevision? { RecoverRevisionLeaves(s, step.id, step.branchHead, id); }
    else if step.SRecordRevision? { RecordRevisionLeaves(s, step.token, step.head, step.base, step.receipt, step.policy, id); }
    else if Apply(s, step).Some? { ReopenLeaves(s, step.t, step.id, step.scope, step.lease, step.policy, id); }
  }

  lemma RewriteKeepsShape(s: State, step: Step)
    requires RecordsOk(s) && Rewrites(step)
    ensures Apply(s, step).Some? ==> SameShape(s, Apply(s, step).value)
  {
    if Finalizes(step) { IntegrationSameShape(s, step); }
    else if step.SReopen? { ReopenStill(s, step.t, step.id, step.scope, step.lease, step.policy); }
    else { RevisionStepsStill(s, step); }
  }

  // ---- The theorems ----

  /** The effect of a completing transaction on batch `id` under policy `p`. */
  ghost predicate CompletedAs(s: State, o: Outcome, id: BatchId, p: Policy) {
    o.Some? ==>
      Held(s, id) && MergePermitted(s.batches[id], p)
      && exists at :: o.value.batches == s.batches[id := AsMerged(s.batches[id], at)]
  }

  lemma MarkMergedCompletes(s: State, id: BatchId, p: Policy, at: Instant)
    ensures CompletedAs(s, MarkMergedLocked(s, id, p, at), id, p)
  {
    var o := MarkMergedLocked(s, id, p, at);
    if o.Some? { assert o.value.batches == s.batches[id := AsMerged(s.batches[id], at)]; }
  }

  lemma CompletionCompletes(s: State, step: Step)
    requires Completes(step)
    ensures CompletedAs(s, Apply(s, step), step.id, PolicyOf(step).value)
  {
    MarkMergedCompletes(s, step.id, PolicyOf(step).value, if step.SMarkMerged? then step.at else s.now);
  }

  /** Every batch newly merged in `t` rests on its approval. */
  ghost predicate MergesOnApproval(s: State, o: Outcome, step: Step) {
    o.Some? ==> forall id | MergedIn(o.value, id) && !MergedIn(s, id) :: MergeRestsOnApproval(s, o.value, step, id)
  }

  lemma CompletionKeeps(s: State, step: Step)
    requires RecordsOk(s) && Completes(step)
    ensures MergesOnApproval(s, Apply(s, step), step)
  {
    CompletionCompletes(s, step);
    if Apply(s, step).Some? {
      CompletionAgrees(s, step);
      CompletedRests(s, Apply(s, step), step, step.id);
    }
  }

  lemma CompletedRests(s: State, o: Outcome, step: Step, id: BatchId)
    requires RecordsOk(s) && o.Some? && PolicyOf(step).Some? && CompletedAs(s, o, id, PolicyOf(step).value)
    requires step.SSync? ==> ForgeAgrees(s.batches[id], step.pr, step.proven)
    ensures MergesOnApproval(s, o, step)
  {
    CompletionRests(s, o.value, step, id);
  }

  /** Completing one batch settles its candidate and touches no other. */
  lemma CompletedSettles(s: State, o: Outcome, at: BatchId, p: Policy, id: BatchId)
    requires CompletedAs(s, o, at, p) && SettledIn(s, id)
    ensures SettledAfter(s, o, id)
  {
  }

  lemma CompletionSettles(s: State, step: Step, id: BatchId)
    requires Completes(step) && SettledIn(s, id)
    ensures SettledAfter(s, Apply(s, step), id)
  {
    CompletionCompletes(s, step);
    CompletedSettles(s, Apply(s, step), step.id, PolicyOf(step).value, id);
  }

  lemma CompletionAgrees(s: State, step: Step)
    requires RecordsOk(s) && Completes(step) && Apply(s, step).Some? && step.id in s.batches
    ensures step.SSync? ==> ForgeAgrees(s.batches[step.id], step.pr, step.proven)
  {
    if step.SSync? { SyncedFromForge(s, step.id, step.config, step.pr, step.proven, step.disabled); }
  }

  /** A step after which a batch is newly merged rests on that batch's approval. */
  lemma MergeNeedsApproval(s: State, step: Step)
    requires RecordsOk(s)
    ensures MergesOnApproval(s, Apply(s, step), step)
  {
    if Completes(step) {
      CompletionKeeps(s, step);
    } else if Rewrites(step) {
      RewriteKeepsShape(s, step);
    } else {
      PlainStepMergesNothing(s, step);
    }
  }

  /** The batch is settled and, if it was merged before and is after, still has the candidate, approval
      included, that it was merged with. */
  ghost predicate SettledAfter(s: State, o: Outcome, id: BatchId) {
    o.Some? ==>
      SettledIn(o.value, id)
      && (MergedIn(s, id) && MergedIn(o.value, id) ==> o.value.batches[id].candidate == s.batches[id].candidate)
  }

  lemma StepKeepsSettled(s: State, step: Step, id: BatchId)
    requires RecordsOk(s) && SettledIn(s, id) && !ReopensMerged(s, step, id)
    ensures SettledAfter(s, Apply(s, step), id)
  {
    if Completes(step) { CompletionSettles(s, step, id); }
    else if Rewrites(step) { RewriteLeaves(s, step, id); }
    else { PlainStepMergesNothing(s, step); }
  }

  lemma ReopenDropsApproval(s: State, step: Step, id: BatchId)
    requires RecordsOk(s) && ReopensMerged(s, step, id)
    ensures id in Apply(s, step).value.batches
    ensures var c := Apply(s, step).value.batches[id].candidate; c.Some? && c.value.approval.None?
  {
    ReopenWrites(s, step.t, step.id, step.scope, step.lease, step.policy);
  }

  /** A step drops the approval a batch was merged on exactly when it reopens one of its tasks. */
  lemma MergedApprovalKeptExactly(s: State, step: Step, id: BatchId)
    requires RecordsOk(s) && SettledIn(s, id) && Apply(s, step).Some?
    requires MergedIn(s, id) && MergedIn(Apply(s, step).value, id)
    requires s.batches[id].candidate.Some? ==> s.batches[id].candidate.value.approval.Some?
    ensures Apply(s, step).value.batches[id].candidate == s.batches[id].candidate <==> !ReopensMerged(s, step, id)
  {
    if ReopensMerged(s, step, id) { ReopenDropsApproval(s, step, id); } else { StepKeepsSettled(s, step, id); }
  }

  /** Approval safety. In every run, crashes and races included, the step that merged a batch is one
      that found the approval and the evidence its candidate needs, under the policy then in force; and
      if it acted on an observation of the forge, then on one of exactly this candidate merged. */
  lemma {:induction false} MergeHasItsStep(serialized: seq<string>, states: seq<State>, steps: seq<Step>, k: nat, id: BatchId)
    returns (j: nat)
    requires Run(serialized, states, steps) && k < |states| && MergedIn(states[k], id)
    ensures j < k && MergedIn(states[j + 1], id) && !MergedIn(states[j], id)
    ensures MergeRestsOnApproval(states[j], states[j + 1], steps[j], id)
    ensures forall i | j < i <= k :: MergedIn(states[i], id)
  {
    assert k > 0;
    if MergedIn(states[k - 1], id) {
      j := MergeHasItsStep(serialized, states, steps, k - 1, id);
    } else {
      j := k - 1;
      RunKeepsRecords(serialized, states, steps, j);
      MergeNeedsApproval(states[j], steps[j]);
    }
  }

  function CandidateIn(s: State, id: BatchId): Option<Candidate> {
    if id in s.batches then s.batches[id].candidate else None
  }

  ghost predicate ApprovedIn(s: State, id: BatchId) {
    SettledIn(s, id) && (CandidateIn(s, id).Some? ==> CandidateIn(s, id).value.approval.Some?)
  }

  /** From a settled approved batch: the step keeps that, and the candidate, exactly if it does not reopen. */
  ghost predicate KeepsUnlessReopened(s: State, t: State, step: Step, id: BatchId) {
    ApprovedIn(s, id) ==>
      (CandidateIn(t, id) == CandidateIn(s, id) <==> !ReopensMerged(s, step, id))
      && (CandidateIn(t, id) == CandidateIn(s, id) ==> ApprovedIn(t, id))
  }

  lemma RunStepKeepsUnlessReopened(serialized: seq<string>, states: seq<State>, steps: seq<Step>, i: nat, id: BatchId)
    requires Run(serialized, states, steps) && i < |steps| && MergedIn(states[i], id) && MergedIn(states[i + 1], id)
    ensures KeepsUnlessReopened(states[i], states[i + 1], steps[i], id)
  {
    if ApprovedIn(states[i], id) {
      RunKeepsRecords(serialized, states, steps, i);
      StepOf(serialized, states, steps, i);
      MergedApprovalKeptExactly(states[i], steps[i], id);
      if !ReopensMerged(states[i], steps[i], id) { StepKeepsSettled(states[i], steps[i], id); }
    }
  }

  /** No step from `j` up to `k` reopens a task of the batch while it is merged. */
  ghost predicate NeverReopened(states: seq<State>, steps: seq<Step>, j: nat, k: nat, id: BatchId)
    requires j <= k < |states| == |steps| + 1
  {
    forall i | j <= i < k :: !ReopensMerged(states[i], steps[i], id)
  }

  ghost predicate CandidateKept(states: seq<State>, j: nat, k: nat, id: BatchId)
    requires j <= k < |states|
  {
    forall i | j <= i <= k :: CandidateIn(states[i], id) == CandidateIn(states[j], id)
  }

  lemma KeptOneMore(states: seq<State>, steps: seq<Step>, j: nat, k: nat, id: BatchId)
    requires j < k < |states| == |steps| + 1
    ensures CandidateKept(states, j, k, id)
            <==> CandidateKept(states, j, k - 1, id) && CandidateIn(states[k], id) == CandidateIn(states[k - 1], id)
    ensures NeverReopened(states, steps, j, k, id)
            <==> NeverReopened(states, steps, j, k - 1, id) && !ReopensMerged(states[k - 1], steps[k - 1], id)
  {
    if CandidateKept(states, j, k, id) { assert CandidateIn(states[k - 1], id) == CandidateIn(states[j], id); }
  }

  lemma {:induction false} ApprovalKeptExactly(states: seq<State>, steps: seq<Step>, j: nat, k: nat, id: BatchId)
    requires j <= k < |states| == |steps| + 1 && ApprovedIn(states[j], id)
    requires forall i | j <= i < k :: KeepsUnlessReopened(states[i], states[i + 1], steps[i], id)
    ensures CandidateKept(states, j, k, id) <==> NeverReopened(states, steps, j, k, id)
    ensures CandidateKept(states, j, k, id) ==> ApprovedIn(states[k], id)
    decreases k
  {
    if j < k {
      ApprovalKeptExactly(states, steps, j, k - 1, id);
      KeptOneMore(states, steps, j, k, id);
      assert KeepsUnlessReopened(states[k - 1], states[k - 1 + 1], steps[k - 1], id);
    }
  }

  /** And the batch keeps the candidate, with the approval and the evidence, that the merging step found,
      for exactly as long as none of its tasks is reopened. */
  lemma RunMergesOnlyApproved(
    serialized: seq<string>, states: seq<State>, steps: seq<Step>, k: nat, id: BatchId) returns (j: nat)
    requires Run(serialized, states, steps) && k < |states| && MergedIn(states[k], id)
    ensures j < k && !MergedIn(states[j], id) && MergedIn(states[j + 1], id)
    ensures forall i | j < i <= k :: MergedIn(states[i], id)
    ensures MergeRestsOnApproval(states[j], states[j + 1], steps[j], id)
    ensures CandidateKept(states, j + 1, k, id) <==> NeverReopened(states, steps, j + 1, k, id)
  {
    j := MergeHasItsStep(serialized, states, steps, k, id);
    forall i | j + 1 <= i < k ensures KeepsUnlessReopened(states[i], states[i + 1], steps[i], id) {
      RunStepKeepsUnlessReopened(serialized, states, steps, i, id);
    }
    ApprovalKeptExactly(states, steps, j + 1, k, id);
  }

  /** In an orderly run no task of a merged batch ever is. */
  lemma OrderlyRunReopensNoMerged(serialized: seq<string>, states: seq<State>, steps: seq<Step>, i: nat, id: BatchId)
    requires Run(serialized, states, steps) && OrderlyRun(states, steps) && i < |steps|
    ensures !ReopensMerged(states[i], steps[i], id)
  {
    RunKeepsCoherent(serialized, states, steps, i);
    CoherentReopensNoMerged(states[i], steps[i], id);
  }
}
