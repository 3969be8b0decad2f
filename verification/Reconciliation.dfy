/**
 What the broker concludes from what the forge shows of a batch's pull request (`syncBatchLocked` in
 src/broker.ts), said on the answer's own fields: a merged pull request is completed or fails its batch, a
 closed one closes or fails it, and an open one never fails a batch under an approval policy.
 */
module Reconciliation {
  import opened Common
  import opened Records
  import opened CandidateLifecycle
  import opened Coordinate
  import opened Provenance

  /** The pull request is of exactly the batch's head and branch. */
  predicate IsTheBatchs(b: Batch, pr: PullRequest) {
    && pr.head.Some? && pr.head == (if b.candidate.Some? then Some(b.candidate.value.sha) else b.headSha)
    && pr.baseBranch == Some(b.baseBranch)
  }

  /** Everything the decision needs to know is known. */
  predicate Known(b: Batch, pr: PullRequest) {
    && (b.candidate.Some? || b.headSha.Some?) && pr.head.Some? && pr.baseBranch.Some?
    && (pr.state == Open ==> pr.baseSha.Some?)
  }

  /** Nobody objects, and every check is green. */
  ghost predicate Unobjected(pr: PullRequest, p: Policy) {
    !pr.changesRequested && !pr.conflicting && AllGreen(pr, p.checks)
  }

  /** The approval is confirmed, is not being revoked, and is of this very candidate. */
  predicate Stands(c: Candidate) {
    c.approval.Some?
    && var a := c.approval.value;
       a.confirmed && !a.revocationRequested && a.sha == c.sha && a.baseSha == c.baseSha && a.policyRevision == c.policyRevision
  }

  /** The merge that happened is one the broker had allowed. */
  ghost predicate Allowed(b: Batch, cfg: Config, pr: PullRequest, proven: bool) {
    && IsTheBatchs(b, pr) && !b.refreshRequired && b.refreshClose.None?
    && if b.candidate.Some? then
         var c := b.candidate.value;
         && cfg.policy.required && PolicyCurrent(cfg.policy, c) && (pr.baseSha == Some(c.baseSha) || proven)
         && Stands(c) && Unobjected(pr, cfg.policy)
       else !cfg.policy.required && (pr.baseSha == Some(b.baseSha) || proven)
  }

  /** A merged pull request is never passed over: the batch is merged exactly if the merge was allowed, and
      fails otherwise. */
  lemma MergedIsDecided(b: Batch, cfg: Config, pr: PullRequest, proven: bool, disabled: bool)
    requires pr.state == PullRequestMerged && Known(b, pr)
    ensures DecideSync(b, cfg, pr, proven, disabled) == if Allowed(b, cfg, pr, proven) then Complete else FailBatch
  {
    GreenIsPassed(pr, cfg.policy.checks);
  }

  /** And only a merged one completes a batch. */
  lemma OnlyMergedCompletes(b: Batch, cfg: Config, pr: PullRequest, proven: bool, disabled: bool)
    ensures DecideSync(b, cfg, pr, proven, disabled) == Complete <==>
              pr.state == PullRequestMerged && Known(b, pr) && Allowed(b, cfg, pr, proven)
  {
    if pr.state == PullRequestMerged && Known(b, pr) { MergedIsDecided(b, cfg, pr, proven, disabled); }
  }

  /** A closed one closes its batch, unless the broker closed it itself to refresh the batch, or it is not the
      batch's any more, which fails it. */
  lemma ClosedIsDecided(b: Batch, cfg: Config, pr: PullRequest, proven: bool, disabled: bool)
    requires pr.state == PullRequestClosed && Known(b, pr)
    ensures DecideSync(b, cfg, pr, proven, disabled)
            == if !IsTheBatchs(b, pr) then FailBatch
               else if b.refreshClose.Some? && b.pullRequest == Some(b.refreshClose.value.pullRequest) then NoChange
               else CloseRejected
  {
  }

  /** While it is open nothing but a moved head, branch or base fails a batch, and under an approval policy
      nothing does. */
  lemma OpenIsDecided(b: Batch, cfg: Config, pr: PullRequest, proven: bool, disabled: bool)
    requires pr.state == Open
    ensures var action := DecideSync(b, cfg, pr, proven, disabled);
            && action != Complete && action != CloseRejected
            && (action == FailBatch ==> !cfg.policy.required && (!IsTheBatchs(b, pr) || pr.baseSha != Some(b.baseSha)))
  {
  }

  /** What makes an approval no longer hold. */
  ghost predicate Objected(b: Batch, c: Candidate, p: Policy, pr: PullRequest) {
    !p.required || !PolicyCurrent(p, c) || !IsTheBatchs(b, pr) || pr.baseSha != Some(c.baseSha) || !Unobjected(pr, p)
  }

  /** A standing approval is revoked exactly when something objects to it; the only thing done first is to put
      out a queue that should not be live, or to fail a batch without a policy whose pull request moved. */
  lemma RevokedExactly(b: Batch, cfg: Config, pr: PullRequest, proven: bool, disabled: bool)
    requires b.candidate.Some? && b.candidate.value.approval.Some? && !b.candidate.value.approval.value.revocationRequested
    requires pr.state == Open && Known(b, pr) && (cfg.autoMerge || !QueueMayBeLive(b, pr)) && (cfg.policy.required || IsTheBatchs(b, pr))
    ensures DecideSync(b, cfg, pr, proven, disabled)
            == if Objected(b, b.candidate.value, cfg.policy, pr) then StartRevocation else Reconcile
  {
    GreenIsPassed(pr, cfg.policy.checks);
  }

  /** What reconciling does to the candidate: whatever no longer holds blocks it or sends it back, without its
      approval; a base or policy that moved asks for a refresh. */
  lemma ReconciledVerdict(b: Batch, cfg: Config, pr: PullRequest)
    requires b.candidate.Some? && Reconciled(b, cfg, pr).candidate.Some?
    ensures var c, r := b.candidate.value, Reconciled(b, cfg, pr);
            var d := r.candidate.value;
            var current := cfg.policy.required && PolicyMatches(cfg.policy, c);
            && (!current ==> d.state == Blocked && d.approval == None && r.refreshRequired)
            && (current && !IsTheBatchs(b, pr) ==> d.state == Blocked && d.approval == None && !r.refreshRequired)
            && (current && IsTheBatchs(b, pr) && pr.baseSha != Some(c.baseSha) ==>
                  d.state == Blocked && d.approval == None && r.refreshRequired)
            && (current && IsTheBatchs(b, pr) && pr.baseSha == Some(c.baseSha) && pr.changesRequested ==>
                  d.state == ChangesRequested && d.approval == None)
            && (current && IsTheBatchs(b, pr) && pr.baseSha == Some(c.baseSha) && !pr.changesRequested && pr.conflicting ==>
                  d.state == Blocked && d.approval == None)
  {
  }

  // ---- The state of a candidate ----

  /** Of a candidate that was not sent back, stopped or ended the state says what its results say: one of them
      failed; or all passed, and it is ready, or approved if it has an approval; or some are still missing. */
  lemma StateSaysResults(c: Candidate)
    requires c.state != ChangesRequested && c.state != Blocked && c.state != Superseded && c.state != Abandoned
             && c.state != CandidateMerged
    ensures var state := Recomputed(c).state;
            var failed := exists i | 0 <= i < |c.required| :: Fails(c, c.required[i]);
            var passed := forall i | 0 <= i < |c.required| :: Passes(c, c.required[i]);
            && (state == VerificationFailed <==> failed)
            && (state == ReadyForApproval <==> passed && c.approval.None?)
            && (state == Approved || state == Merging <==> passed && c.approval.Some?)
            && (state == Verifying <==> !failed && !passed)
  {
    if i: nat :| i < |c.required| && Fails(c, c.required[i]) { assert !Passes(c, c.required[i]); }
  }

  /** An approval outlives a reconciliation exactly if it was not being revoked, the pull request is the
      candidate's with nobody objecting, and every result the candidate wants is then a pass. */
  lemma ApprovalSurvivesExactly(b: Batch, cfg: Config, pr: PullRequest)
    requires b.candidate.Some? && b.candidate.value.approval.Some? && Reconciled(b, cfg, pr).candidate.Some?
    requires b.candidate.value.state == Approved || b.candidate.value.state == Merging
    ensures var c := b.candidate.value;
            var o := Observed(c, cfg.policy, pr);
            Reconciled(b, cfg, pr).candidate.value.approval.Some? <==>
              && !c.approval.value.revocationRequested
              && cfg.policy.required && PolicyMatches(cfg.policy, c) && IsTheBatchs(b, pr) && pr.baseSha == Some(c.baseSha)
              && !pr.changesRequested && !pr.conflicting
              && forall i | 0 <= i < |c.required| :: Passes(o, c.required[i])
  {
    var c := b.candidate.value;
    ObservedPasses(c, cfg.policy, pr);
    if cfg.policy.required && PolicyMatches(cfg.policy, c) && IsTheBatchs(b, pr) && pr.baseSha == Some(c.baseSha)
       && !pr.changesRequested && !pr.conflicting
    {
      ObservedApproval(b, cfg, pr);
    }
  }

  lemma ObservedPasses(c: Candidate, p: Policy, pr: PullRequest)
    requires c.state == Approved || c.state == Merging
    ensures var o := Observed(c, p, pr);
            o.required == c.required && o.approval == c.approval
            && (c.approval.Some? ==> (o.state == Approved || o.state == Merging <==> AllPassed(o)))
  {
    var o := Observed(c, p, pr);
    var d := c.(evidence := WithoutChecks(c.evidence, p.checks) + ObservedChecks(c, pr, p.checks));
    assert o == Recomputed(d);
    StateSaysResults(d);
    forall i | 0 <= i < |c.required| ensures Passes(o, c.required[i]) == Passes(d, c.required[i]) { }
  }

  lemma ObservedApproval(b: Batch, cfg: Config, pr: PullRequest)
    requires b.candidate.Some? && b.candidate.value.approval.Some? && ChecksObserved(b, cfg, pr).candidate.Some?
    ensures var o := Observed(b.candidate.value, cfg.policy, pr);
            ChecksObserved(b, cfg, pr).candidate.value.approval.Some? <==>
              !o.approval.value.revocationRequested && (o.state == Approved || o.state == Merging)
  {
  }

  // ---- The queue ----

  /** The forge may merge the pull request on its own, for all the broker knows. */
  predicate MayBeQueued(b: Batch, pr: PullRequest) {
    b.autoMergeEnabled == Some(true) || b.autoMergePending || pr.autoMerge != Some(false)
  }

  /** Where merging automatically is not configured a queue is put out; where it is, one that no approval stands
      behind is suspected first of all. */
  lemma LiveQueueIsStopped(b: Batch, cfg: Config, pr: PullRequest, proven: bool, disabled: bool)
    requires pr.state == Open && Known(b, pr) && MayBeQueued(b, pr)
    ensures !cfg.autoMerge ==> DecideSync(b, cfg, pr, proven, disabled) == if disabled then StopQueue else NoChange
    ensures cfg.autoMerge && b.candidate.Some? && b.candidate.value.approval == None && (cfg.policy.required || IsTheBatchs(b, pr)) ==>
              DecideSync(b, cfg, pr, proven, disabled) == SuspectQueue
  {
  }

  /** A batch published before there was an approval policy gets a candidate exactly if the pull request is still
      the batch's, on its base, and no queue can merge it meanwhile. */
  lemma AdoptedExactly(b: Batch, cfg: Config, pr: PullRequest, proven: bool, disabled: bool)
    requires pr.state == Open && Known(b, pr) && b.candidate == None && cfg.policy.required
    requires cfg.autoMerge || !MayBeQueued(b, pr)
    ensures DecideSync(b, cfg, pr, proven, disabled) == AdoptCandidate <==>
              IsTheBatchs(b, pr) && pr.baseSha == Some(b.baseSha) && (MayBeQueued(b, pr) ==> disabled)
  {
  }

  /** What these decisions record. */
  lemma SyncRecords(s: State, id: BatchId, cfg: Config, pr: PullRequest, action: SyncAction)
    requires Held(s, id) && CommitSync(s, id, cfg, pr, action).Some?
    requires action == SuspectQueue || action == StopQueue || action == StopUnauthorized || action == AdoptCandidate
             || action == StartRevocation || action == MarkStale || action == RecordQueue
    ensures var b, t := s.batches[id], CommitSync(s, id, cfg, pr, action).value;
            && id in t.batches && t.tasks == s.tasks && t.batches == s.batches[id := t.batches[id]]
            && t.batches[id].status == b.status && t.batches[id].taskIds == b.taskIds
            && var r := t.batches[id];
            && (action == SuspectQueue ==> r == b.(autoMergeEnabled := Some(false), autoMergePending := true))
            && (action == MarkStale ==> r == b.(autoMergeEnabled := Some(false), autoMergePending := false, refreshRequired := true))
            && (action == RecordQueue ==> r == b.(autoMergeEnabled := pr.autoMerge, autoMergePending := false))
            && (action == StopQueue || action == StopUnauthorized ==>
                  r.autoMergeEnabled == Some(false) && !r.autoMergePending && r.refreshRequired == b.refreshRequired)
            && (action == StopQueue && b.candidate.Some? && b.candidate.value.approval.Some? && b.candidate.value.state == Merging ==>
                  r.candidate == Some(b.candidate.value.(state := Approved)))
            && (action == AdoptCandidate ==>
                  b.headSha.Some? && r.candidate.Some? && r.candidate.value.sha == b.headSha.value
                  && r.candidate.value.baseSha == b.baseSha && r.candidate.value.revision == 1
                  && r.candidate.value.evidence == [] && r.candidate.value.approval == None)
            && (action == StartRevocation ==>
                  b.candidate.Some? && b.candidate.value.approval.Some?
                  && r == b.(candidate := Some(b.candidate.value.(
                               approval := Some(b.candidate.value.approval.value.(revocationRequested := true))))))
  {
  }

  /** The forge is asked to merge on its own only what is approved, confirmed and not being revoked, under the
      policy in force; or what needs no approval. */
  lemma OnlyApprovedIsQueued(s: State, id: BatchId, p: Policy)
    requires PublishQueueAttempt(s, id, p).Some?
    ensures id in s.views && s.views[id].status == BatchPublished && !s.views[id].refreshRequired && s.views[id].changeRequest == None
    ensures var v := s.views[id];
            if v.candidate.Some? then
              var c := v.candidate.value;
              p.required && PolicyCurrent(p, c) && c.approval.Some? && c.approval.value.confirmed
              && !c.approval.value.revocationRequested && (c.state == Approved || c.state == Merging)
            else !p.required
  {
  }
}
