/**
 When the transactions on one batch are carried out, and what they record, on the records' own fields:
 change requests, revisions, closing, refreshing and the queue. No other batch is ever touched.
 */
module BatchOutcomes {
  import opened Common
  import opened Records
  import opened CandidateLifecycle
  import opened Coordinate
  import ApprovalSafety
  import Provenance

  /** One batch is replaced, its holder knows, and nothing else changes but perhaps tasks. */
  ghost predicate Rewritten(s: State, t: State, id: BatchId) {
    && id in s.batches && id in t.batches && t.batches == s.batches[id := t.batches[id]]
    && id in t.views && t.views[id] == t.batches[id] && t.views.Keys == s.views.Keys
    && (forall k | k in s.views && k != id :: t.views[k] == s.views[k])
    && t.integration == s.integration && t.now == s.now && t.serialized == s.serialized
  }

  /** One task is replaced. */
  ghost predicate OneTask(s: State, t: State, k: TaskId) {
    k in s.tasks && k in t.tasks && t.tasks == s.tasks[k := t.tasks[k]]
  }

  /** The caller names this very candidate. */
  predicate Names(binding: Binding, c: Candidate) {
    && binding.sha == c.sha && binding.baseSha == c.baseSha
    && (binding.policyRevision.Some? ==> binding.policyRevision.value == c.policyRevision)
  }

  // ---- Change requests ----

  /** Changes are requested of a published candidate that is still what its open pull request offers, unless
      another transition has begun; and only the request is recorded. */
  lemma ChangesAreRequested(s: State, id: BatchId, binding: Binding, pr: PullRequest)
    requires Held(s, id) && s.views[id] == s.batches[id]
    ensures var b, o := s.batches[id], RequestChanges(s, id, binding, pr);
            && (o.Some? <==>
                  b.status == BatchPublished && b.pullRequest.Some? && b.candidate.Some? && Names(binding, b.candidate.value)
                  && pr.state == Open && pr.head == Some(b.candidate.value.sha)
                  && b.revision.None? && b.changeRequest.None? && !b.refreshRequired && b.refreshClose.None?)
            && (o.Some? ==> Rewritten(s, o.value, id) && o.value.tasks == s.tasks
                            && o.value.batches[id] == b.(changeRequest := Some(binding)))
  {
  }

  /** A recorded request is carried out by what the forge then shows: the candidate is sent back if its pull
      request is still open at it, the batch is closed if that is closed, and fails if it has moved. */
  lemma ChangesAreCompleted(s: State, id: BatchId, pr: PullRequest)
    requires CompleteChangeRequest(s, id, pr).Some? && Held(s, id) && s.views[id] == s.batches[id]
    ensures var b, t := s.batches[id], CompleteChangeRequest(s, id, pr).value;
            && b.changeRequest.Some? && b.candidate.Some? && Names(b.changeRequest.value, b.candidate.value)
            && Rewritten(s, t, id) && t.batches[id].changeRequest == None && t.batches[id].autoMergeEnabled == Some(false)
            && t.batches[id].candidate.Some?
            && var c, d := b.candidate.value, t.batches[id].candidate.value;
            && d.approval == None && d.sha == c.sha && d.evidence == c.evidence
            && (pr.state == PullRequestClosed ==> t.batches[id].status == Closed && d.state == Abandoned)
            && (pr.state == Open && pr.head == Some(c.sha) ==>
                  t.batches[id].status == b.status && d.state == ChangesRequested && t.tasks == s.tasks)
            && (pr.state != PullRequestClosed && !(pr.state == Open && pr.head == Some(c.sha)) ==>
                  t.batches[id].status == BatchFailed && d.state == Blocked)
  {
  }

  // ---- Revision ----

  /** A task is reopened only while it is batched or published, of a candidate that is neither approved nor
      merging nor queued, and goes to one caller with the scope asked for; the candidate is sent back. */
  lemma TaskIsReopened(s: State, k: TaskId, id: BatchId, paths: Option<seq<string>>, lease: Lease, p: Policy)
    requires ReopenTask(s, k, id, paths, lease, p).Some?
    ensures p.required && k in s.tasks && id in s.batches
    ensures var t, u, b := ReopenTask(s, k, id, paths, lease, p).value, s.tasks[k], s.batches[id];
            && (u.status == Batched || u.status == Published) && u.batchId == Some(id)
            && (u.lease.None? || u.lease.value.expiresAt <= s.now)
            && b.revision == None && b.candidate.Some? && b.candidate.value.state != Approved && b.candidate.value.state != Merging
            && b.autoMergeEnabled != Some(true) && !b.autoMergePending
            && OneTask(s, t, k) && t.tasks[k].lease == Some(lease) && t.tasks[k].status == u.status
            && (forall q :: q in t.tasks[k].expectedPaths <==> q in if paths.Some? then paths.value else u.expectedPaths)
            && Rewritten(s, t, id) && t.batches[id].candidate.Some?
            && t.batches[id].candidate.value == b.candidate.value.(state := ChangesRequested, approval := None)
  {
    DedupKeepsElements(OrElse(paths, s.tasks[k].expectedPaths));
  }

  /** A revision begins for the holder of the lease of a task of the batch, on a candidate that was sent back
      and, if published, is still what its pull request offers. */
  lemma RevisionBegins(s: State, id: BatchId, k: TaskId, token: nat, pr: PullRequest)
    requires Held(s, id)
    ensures BeginRevision(s, id, k, token, pr).Some? <==>
              && s.integration == Free && k in s.tasks
              && var u, b := s.tasks[k], s.batches[id];
              && (u.status == Batched || u.status == Published) && u.batchId == Some(id)
              && u.lease.Some? && u.lease.value.token == token && s.now < u.lease.value.expiresAt
              && b.revision == None && b.candidate.Some? && b.candidate.value.state == ChangesRequested && b.branchName.Some?
              && (b.pullRequest.Some? ==> b.targetBound && pr.state == Open && pr.head == Some(b.candidate.value.sha))
  {
  }

  /** What a revision is going to install: the batch as it was read, cut anew from this base at this commit, with
      the next candidate. */
  lemma RevisionIsRecorded(s: State, token: nat, head: Sha, base: Sha, receipt: Receipt, p: Policy)
    requires RecordRevision(s, token, head, base, receipt, p).Some?
    ensures s.integration.Revising?
    ensures var t, id, k := RecordRevision(s, token, head, base, receipt, p).value, s.integration.id, s.integration.task;
            && id in s.views && s.views[id].candidate.Some? && Rewritten(s, t, id) && t.batches[id].revision.Some?
            && var r, c := t.batches[id].revision.value, s.views[id].candidate.value;
            && r.taskId == k && r.revised == receipt && r.previousSha == c.sha && r.candidateSha == head && r.revision == c.revision + 1
            && r.next.headSha == Some(head) && r.next.baseSha == base && r.next.branchName == s.views[id].branchName
            && r.next.status == s.views[id].status && r.next.taskIds == s.views[id].taskIds
            && !r.next.refreshRequired && r.next.refreshClose == None && r.next.changeRequest == None
            && r.next.autoMergeEnabled == None && !r.next.autoMergePending
            && r.next.candidate.Some? && r.next.candidate.value.sha == head && r.next.candidate.value.baseSha == base
            && r.next.candidate.value.policyRevision == p.revision
  {
  }

  /** Finishing gives the task what the revision submitted and ends its lease. */
  lemma RevisedTaskGetsReceipt(s: State, id: BatchId)
    requires FinalizeRevision(s, id).Some?
    ensures id in s.batches && s.batches[id].revision.Some? && s.batches[id].revision.value.taskId in s.tasks
    ensures var t, r := FinalizeRevision(s, id).value, s.batches[id].revision.value;
            && OneTask(s, t, r.taskId) && t.tasks[r.taskId].receipt == r.revised && t.tasks[r.taskId].lease == None
            && t.tasks[r.taskId].status == s.tasks[r.taskId].status && t.tasks[r.taskId].batchId == s.tasks[r.taskId].batchId
  {
  }

  // ---- Closing and completing ----

  /** A transition that has begun may not be closed over, except by whoever carries it out. */
  lemma ClosedExactly(s: State, id: BatchId, changeRequest: bool, revocation: bool, refreshRequired: bool, refreshClose: bool)
    requires Held(s, id)
    ensures CloseLocked(s, id, changeRequest, revocation, refreshRequired, refreshClose).Some? <==>
              var b := s.batches[id];
              && (b.status == Prepared || b.status == BatchPublished) && b.revision == None
              && (b.changeRequest.Some? ==> changeRequest)
              && (b.candidate.Some? && b.candidate.value.approval.Some? && b.candidate.value.approval.value.revocationRequested
                  ==> revocation)
              && (b.refreshRequired ==> refreshRequired) && (b.refreshClose.Some? ==> refreshClose)
              && forall k | k in b.taskIds :: k in s.tasks && (s.tasks[k].batchId == None || s.tasks[k].batchId == Some(id))
  {
    var b := s.batches[id];
    if forall k | k in b.taskIds :: k in s.tasks && (s.tasks[k].batchId == None || s.tasks[k].batchId == Some(id)) {
      assert !Reassigned(s, id, b.taskIds);
    }
    if !Reassigned(s, id, b.taskIds) && TasksKnown(s, b.taskIds) {
      forall k | k in b.taskIds ensures k in s.tasks && (s.tasks[k].batchId == None || s.tasks[k].batchId == Some(id)) { }
    }
  }

  /** An operator closes a batch alone only if nothing has begun and no pull request or queue may be live. */
  lemma OperatorClosesExactly(s: State, id: BatchId)
    requires Held(s, id) && s.views[id] == s.batches[id]
    ensures CloseBatch(s, id).Some? <==>
              var b := s.batches[id];
              && (b.status == Prepared || b.status == BatchPublished)
              && b.revision == None && b.changeRequest == None && !b.refreshRequired && b.refreshClose == None
              && !(b.candidate.Some? && b.candidate.value.approval.Some? && b.candidate.value.approval.value.revocationRequested)
              && b.pullRequest == None && b.autoMergeEnabled != Some(true) && !b.autoMergePending
              && forall k | k in b.taskIds :: k in s.tasks && (s.tasks[k].batchId == None || s.tasks[k].batchId == Some(id))
  {
    ClosedExactly(s, id, false, false, false, false);
  }

  /** Completion: no transition under way, no task given to another batch, and with a candidate, or under a policy
      that wants one, its confirmed approval under that very policy. */
  lemma MergedExactly(s: State, id: BatchId, p: Policy, at: Instant)
    requires Held(s, id)
    ensures MarkMergedLocked(s, id, p, at).Some? <==>
              var b := s.batches[id];
              && (b.status == Prepared || b.status == BatchPublished || b.status == Closed || b.status == BatchMerged)
              && b.revision == None && b.changeRequest == None && !b.refreshRequired && b.refreshClose == None
              && (forall k | k in b.taskIds :: k in s.tasks && (s.tasks[k].batchId == None || s.tasks[k].batchId == Some(id)))
              && (b.candidate.Some? <==> p.required)
              && (b.candidate.Some? ==>
                    var c := b.candidate.value;
                    && ApprovalSafety.PolicyAgrees(p, c) && c.approval.Some?
                    && c.approval.value.confirmed && !c.approval.value.revocationRequested
                    && c.approval.value.sha == c.sha && c.approval.value.baseSha == c.baseSha
                    && c.approval.value.policyRevision == c.policyRevision)
  {
    var b := s.batches[id];
    TasksAreItsOwn(s, id, b.taskIds);
    if b.candidate.Some? && p.required { ApprovalSafety.CurrentAgrees(p, b.candidate.value); }
  }

  lemma TasksAreItsOwn(s: State, id: BatchId, ids: seq<TaskId>)
    ensures TasksKnown(s, ids) && !Reassigned(s, id, ids) <==>
              forall k | k in ids :: k in s.tasks && (s.tasks[k].batchId == None || s.tasks[k].batchId == Some(id))
  {
    if TasksKnown(s, ids) && !Reassigned(s, id, ids) {
      forall k | k in ids ensures k in s.tasks && (s.tasks[k].batchId == None || s.tasks[k].batchId == Some(id)) { }
    }
  }

  // ---- Refresh ----

  /** A refresh begins when the base has moved, or one was asked for or begun, or the target is not bound; the intent
      to close the pull request is recorded once, and keeps its nonce when it is recorded again. */
  lemma RefreshStarts(s: State, id: BatchId, target: Sha, nonce: nat)
    requires Held(s, id) && s.views[id] == s.batches[id]
    ensures var b, o := s.batches[id], StartRefresh(s, id, target, nonce);
            && (o.Some? <==>
                  && (b.status == Prepared || b.status == BatchPublished) && b.revision == None && b.changeRequest == None
                  && (target != b.baseSha || b.refreshRequired || b.refreshClose.Some? || !b.targetBound))
            && (o.Some? ==>
                  && Rewritten(s, o.value, id) && o.value.tasks == s.tasks && o.value.batches[id].refreshRequired
                  && o.value.batches[id] == b.(refreshRequired := true, refreshClose := o.value.batches[id].refreshClose)
                  && (b.pullRequest == None ==> o.value.batches[id].refreshClose == b.refreshClose)
                  && (b.pullRequest.Some? ==>
                        o.value.batches[id].refreshClose.Some?
                        && var r := o.value.batches[id].refreshClose.value;
                        && r.pullRequest == b.pullRequest.value && r.targetBaseSha == target
                        && r.nonce == if b.refreshClose.Some? && b.refreshClose.value.pullRequest == b.pullRequest.value
                                      then b.refreshClose.value.nonce else nonce))
  {
  }

  /** Its queue is put out before its pull request is closed, and the batch is superseded only with that intent on
      record. */
  lemma RefreshGoesOn(s: State, id: BatchId)
    requires Held(s, id) && s.views[id] == s.batches[id]
    ensures var b := s.batches[id];
            var begun := (b.status == Prepared || b.status == BatchPublished) && b.revision == None && b.changeRequest == None
                         && b.refreshRequired && (b.pullRequest.Some? ==> b.refreshClose.Some?);
            && (QuietRefresh(s, id).Some? <==> begun)
            && (FinishRefresh(s, id).Some? <==> begun && forall k | k in b.taskIds :: k in s.tasks)
            && (QuietRefresh(s, id).Some? ==>
                  var t := QuietRefresh(s, id).value;
                  && Rewritten(s, t, id) && t.tasks == s.tasks && t.batches[id].autoMergeEnabled == Some(false)
                  && !t.batches[id].autoMergePending && t.batches[id].status == b.status
                  && (b.candidate.Some? ==>
                        t.batches[id].candidate.Some?
                        && t.batches[id].candidate.value.state
                           == (if b.candidate.value.state == Merging then Approved else b.candidate.value.state)
                        && t.batches[id].candidate.value.approval == b.candidate.value.approval))
  {
  }

  /** A batch without a bound target, or whose base is stale, is not published but marked for a refresh. */
  lemma UnpublishedIsMarked(s: State, id: BatchId, stale: bool)
    requires Held(s, id) && s.views[id] == s.batches[id]
    ensures var b, o := s.batches[id], PublishFailed(s, id, stale);
            && (o.Some? <==> (b.status == Prepared || b.status == BatchPublished) && b.revision == None && b.changeRequest == None)
            && (o.Some? ==> o.value.batches[id] == b.(refreshRequired := stale || b.refreshRequired) && o.value.tasks == s.tasks)
    ensures var b, o := s.batches[id], PublishUnbound(s, id);
            && (o.Some? <==> !b.targetBound && b.revision == None && b.changeRequest == None)
            && (o.Some? ==> o.value.tasks == s.tasks
                            && o.value.batches[id] == b.(refreshRequired := (b.status == Prepared && b.localOnly) || b.refreshRequired))
  {
  }

  // ---- The queue ----

  /** A queued merge is recorded as attempted before the forge is asked, and as enabled only when it said so. */
  lemma QueueIsRecorded(s: State, id: BatchId, p: Policy, enabled: bool)
    requires Held(s, id)
    ensures PublishQueueAttempt(s, id, p).Some? ==>
              var t := PublishQueueAttempt(s, id, p).value;
              Rewritten(s, t, id) && t.tasks == s.tasks
              && t.batches[id] == s.batches[id].(autoMergePending := true, autoMergeEnabled := Some(false))
    ensures PublishQueueOutcome(s, id, p, enabled).Some? ==>
              var t, b := PublishQueueOutcome(s, id, p, enabled).value, s.batches[id];
              && Rewritten(s, t, id) && t.tasks == s.tasks && s.views[id].autoMergePending
              && t.batches[id].autoMergeEnabled == Some(enabled) && t.batches[id].autoMergePending == !enabled
              && t.batches[id].status == b.status && (t.batches[id].candidate.Some? <==> b.candidate.Some?)
              && (b.candidate.Some? ==>
                    t.batches[id].candidate.value.state
                    == if enabled && b.candidate.value.approval.Some? then Merging else b.candidate.value.state)
  {
  }

  /** And it is asked only for a published batch, not under change, not stale, and not queued already, whose
      approval stands under the policy in force, or that needs none. */
  lemma QueuedExactly(s: State, id: BatchId, p: Policy)
    requires Held(s, id) && s.views[id] == s.batches[id]
    ensures PublishQueueAttempt(s, id, p).Some? <==>
              var b := s.batches[id];
              && b.status == BatchPublished && b.pullRequest.Some? && b.revision == None && b.changeRequest == None
              && !b.refreshRequired && b.autoMergeEnabled != Some(true)
              && (b.candidate.Some? <==> p.required)
              && (b.candidate.Some? ==>
                    var c := b.candidate.value;
                    && ApprovalSafety.PolicyAgrees(p, c) && c.approval.Some? && c.approval.value.confirmed
                    && !c.approval.value.revocationRequested && (c.state == Approved || c.state == Merging))
  {
    if s.batches[id].candidate.Some? && p.required { ApprovalSafety.CurrentAgrees(p, s.batches[id].candidate.value); }
  }

  /** The approving call queues what it approved under the same terms, for the candidate it names. */
  lemma ApprovedIsQueued(s: State, id: BatchId, binding: Binding, enabled: bool)
    requires Held(s, id) && s.views[id] == s.batches[id]
    ensures var b := s.batches[id];
            var stands := b.status == BatchPublished && b.revision == None && b.changeRequest == None && b.candidate.Some?
                          && b.candidate.value.approval.Some?
                          && (b.candidate.value.state == Approved || b.candidate.value.state == Merging)
                          && Names(binding, b.candidate.value);
            && (ApproveQueueAttempt(s, id, binding).Some? <==> stands && b.autoMergeEnabled != Some(true))
            && (ApproveQueueAttempt(s, id, binding).Some? ==>
                  var t := ApproveQueueAttempt(s, id, binding).value;
                  t.tasks == s.tasks && t.batches == s.batches[id := b.(autoMergePending := true, autoMergeEnabled := Some(false))])
            && (ApproveQueueOutcome(s, id, binding, enabled).Some? <==> stands && b.autoMergePending)
            && (ApproveQueueOutcome(s, id, binding, enabled).Some? ==>
                  var t := ApproveQueueOutcome(s, id, binding, enabled).value;
                  && t.tasks == s.tasks && t.batches == s.batches[id := t.batches[id]]
                  && t.batches[id].autoMergeEnabled == Some(enabled) && t.batches[id].autoMergePending == !enabled
                  && t.batches[id].candidate.Some? && t.batches[id].candidate.value.approval == b.candidate.value.approval
                  && t.batches[id].candidate.value.state == if enabled then Merging else b.candidate.value.state)
  {
  }

  /** A published batch without a bound target is marked for a refresh instead of approved. */
  lemma UnboundIsNotApproved(s: State, id: BatchId)
    requires Held(s, id) && s.views[id] == s.batches[id]
    ensures var b := s.batches[id];
            && (ApproveUnbound(s, id).Some? <==>
                  b.status == BatchPublished && b.pullRequest.Some? && b.revision == None && !b.targetBound)
            && (ApproveUnbound(s, id).Some? ==>
                  var t := ApproveUnbound(s, id).value;
                  t.tasks == s.tasks && t.batches == s.batches[id := b.(refreshRequired := true)])
  {
  }

  /** A batch whose branch, without a pull request, was found landed completes under the same terms as any other. */
  lemma LandedCompletes(s: State, id: BatchId, p: Policy)
    requires Held(s, id) && s.views[id] == s.batches[id]
    ensures var b := s.batches[id];
            SyncLanded(s, id, p) == if b.pullRequest == None && b.headSha.Some? && b.status != BatchMerged && b.revision == None
                                       && b.changeRequest == None
                                    then MarkMergedLocked(s, id, p, s.now) else None
  {
  }

  // ---- Verification and approval ----

  /** A result is taken for a name the policy wants, on a published candidate named exactly and open at the forge,
      and not once the candidate is approved, merging or ended. */
  lemma VerifiedExactly(s: State, id: BatchId, name: string, passed: bool, binding: Binding, p: Policy, pr: PullRequest)
    requires Held(s, id) && s.views[id] == s.batches[id]
    ensures RecordVerification(s, id, name, passed, binding, p, pr).Some? <==>
              var b := s.batches[id];
              && p.required && name in p.verifications
              && b.revision == None && b.status == BatchPublished && b.pullRequest.Some? && b.candidate.Some?
              && var c := b.candidate.value;
              && Names(binding, c) && ApprovalSafety.PolicyAgrees(p, c) && pr.state == Open && pr.head == Some(c.sha)
              && c.state != Approved && c.state != Merging && c.state != Superseded && c.state != Abandoned && c.state != CandidateMerged
  {
    if s.batches[id].candidate.Some? && p.required { ApprovalSafety.CurrentAgrees(p, s.batches[id].candidate.value); }
  }

  /** An approval is taken from an authorized actor for a candidate named exactly, once its results are in, while its
      pull request is open at it on its base and branch with all checks green and nobody objecting, and while
      none of its tasks is being reworked. */
  lemma ApprovedExactly(s: State, id: BatchId, binding: Binding, actor: Actor, p: Policy, pr: PullRequest)
    requires Held(s, id) && s.views[id] == s.batches[id]
    ensures ApproveBatch(s, id, binding, actor, p, pr).Some? <==>
              var b := s.batches[id];
              && p.required && (p.authorized == [] || actor in p.authorized)
              && b.revision == None && b.status == BatchPublished && b.pullRequest.Some? && b.candidate.Some?
              && var c := b.candidate.value;
              && Names(binding, c) && ApprovalSafety.PolicyAgrees(p, c)
              && (c.state == ReadyForApproval || c.state == Approved || c.state == Merging)
              && pr.state == Open && pr.head == Some(c.sha) && pr.baseBranch == Some(b.baseBranch) && pr.baseSha == Some(c.baseSha)
              && Provenance.AllGreen(pr, p.checks)
              && !pr.changesRequested && !pr.conflicting
              && forall k | k in b.taskIds ::
                   k in s.tasks && s.tasks[k].status == Published
                   && (s.tasks[k].lease.None? || s.tasks[k].lease.value.expiresAt <= s.now)
  {
    if s.batches[id].candidate.Some? && p.required { ApprovalSafety.CurrentAgrees(p, s.batches[id].candidate.value); }
    Provenance.GreenIsPassed(pr, p.checks);
    SettledMeans(s, s.batches[id].taskIds);
  }

  lemma SettledMeans(s: State, ids: seq<TaskId>)
    ensures TasksSettled(s, ids) <==>
              forall k | k in ids :: k in s.tasks && s.tasks[k].status == Published
                                     && (s.tasks[k].lease.None? || s.tasks[k].lease.value.expiresAt <= s.now)
  {
    if TasksSettled(s, ids) {
      forall k | k in ids ensures s.tasks[k].lease.None? || s.tasks[k].lease.value.expiresAt <= s.now {
        assert !LeaseLive(s.tasks[k], s.now);
      }
    }
  }
}
