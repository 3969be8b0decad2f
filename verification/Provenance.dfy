/**
 Where evidence and approvals come from. Every result on a candidate was reported for exactly that
 candidate, by a verifier or by the forge, and says what was reported; every approval was given by the
 actor it names, when nothing stood against it; and what is merged rests on such reports.
 */
module Provenance {
  import opened Common
  import opened Records
  import opened CandidateLifecycle
  import opened Coordinate
  import opened BatchRecords
  import ApprovalSafety

  function CandidateOf(s: State, id: BatchId): Option<Candidate> {
    if id in s.batches then s.batches[id].candidate else None
  }

  function EvidenceIn(s: State, id: BatchId): seq<Evidence> {
    if CandidateOf(s, id).Some? then CandidateOf(s, id).value.evidence else []
  }

  function ApprovalIn(s: State, id: BatchId): Option<Approval> {
    if CandidateOf(s, id).Some? then CandidateOf(s, id).value.approval else None
  }

  // ---- The steps that report ----

  /** The pull request has runs of this check, and every one succeeded. */
  ghost predicate AllRunsSucceeded(pr: PullRequest, check: string) {
    && (exists i | 0 <= i < |pr.checks| :: pr.checks[i].name == check)
    && forall i | 0 <= i < |pr.checks| && pr.checks[i].name == check :: pr.checks[i].verdict == Succeeded
  }

  ghost predicate AllGreen(pr: PullRequest, checks: seq<string>) {
    forall k | 0 <= k < |checks| :: AllRunsSucceeded(pr, checks[k])
  }

  lemma GreenIsPassed(pr: PullRequest, checks: seq<string>)
    ensures AllGreen(pr, checks) <==> ChecksPassed(pr, checks)
  {
    if AllGreen(pr, checks) {
      forall i | 0 <= i < |checks| ensures CheckPassed(pr, checks[i]) { assert AllRunsSucceeded(pr, checks[i]); }
    }
    if ChecksPassed(pr, checks) {
      forall i | 0 <= i < |checks| ensures AllRunsSucceeded(pr, checks[i]) { assert CheckPassed(pr, checks[i]); }
    }
  }

  ghost predicate SomeRunErrored(pr: PullRequest, check: string) {
    exists i | 0 <= i < |pr.checks| :: pr.checks[i].name == check && pr.checks[i].verdict == Errored
  }

  ghost predicate IsOf(e: Evidence, c: Candidate) {
    e.sha == c.sha && e.baseSha == c.baseSha && e.policyRevision == c.policyRevision
  }

  /** A verifier reported this result, by this name, for this commit on this base, while the pull request was
      open at it. */
  ghost predicate Verifies(s: State, step: Step, id: BatchId, e: Evidence) {
    && step.SVerify? && step.id == id && step.name == e.name && step.passed == e.passed
    && e.name in step.policy.verifications
    && step.binding.sha == e.sha && step.binding.baseSha == e.baseSha
    && (step.binding.policyRevision.Some? ==> step.binding.policyRevision.value == e.policyRevision)
    && step.pr.state == Open && step.pr.head == Some(e.sha)
    && CandidateOf(s, id).Some? && IsOf(e, CandidateOf(s, id).value)
  }

  /** The forge showed the check's runs on this commit and base, and they add up to this result. */
  ghost predicate Observes(s: State, step: Step, id: BatchId, e: Evidence) {
    && step.SSync? && step.id == id
    && (exists k | 0 <= k < |step.config.policy.checks| ::
          var check := step.config.policy.checks[k];
          e.name == "github-check:" + check
          && (if e.passed then AllRunsSucceeded(step.pr, check) else SomeRunErrored(step.pr, check)))
    && step.pr.head == Some(e.sha) && step.pr.baseSha == Some(e.baseSha)
    && CandidateOf(s, id).Some? && IsOf(e, CandidateOf(s, id).value)
  }

  ghost predicate Reports(s: State, step: Step, id: BatchId, e: Evidence) {
    Verifies(s, step, id, e) || Observes(s, step, id, e)
  }

  // ---- The steps that approve ----

  /** The same approval: who gave it, and for what. */
  predicate SameApproval(a: Approval, b: Approval) {
    a.sha == b.sha && a.baseSha == b.baseSha && a.policyRevision == b.policyRevision && a.actor == b.actor
  }

  /** An authorized actor approves a candidate all of whose results are passes, while its pull request is open at
      it, on its base, with every check green and nobody objecting, and none of its tasks is being reworked. */
  ghost predicate Approves(s: State, step: Step, id: BatchId, a: Approval) {
    && step.SApprove? && step.id == id && step.actor == a.actor
    && step.policy.required && (step.policy.authorized == [] || a.actor in step.policy.authorized)
    && step.binding.sha == a.sha && step.binding.baseSha == a.baseSha
    && step.pr.state == Open && step.pr.head == Some(a.sha) && step.pr.baseSha == Some(a.baseSha)
    && !step.pr.changesRequested && !step.pr.conflicting
    && AllGreen(step.pr, step.policy.checks)
    && CandidateOf(s, id).Some?
    && var c := CandidateOf(s, id).value;
    && a.sha == c.sha && a.baseSha == c.baseSha && a.policyRevision == c.policyRevision
    && (forall i | 0 <= i < |c.required| :: PassedFor(c, c.required[i]))
    && forall t | t in s.batches[id].taskIds ::
         t in s.tasks && s.tasks[t].status == Published
         && (s.tasks[t].lease.None? || s.tasks[t].lease.value.expiresAt <= s.now)
  }

  /** The forge then shows it still so, with every check the candidate wants green on this commit and base. */
  ghost predicate Confirms(s: State, step: Step, id: BatchId, a: Approval) {
    && step.SSync? && step.id == id && step.config.policy.required
    && step.pr.head == Some(a.sha) && step.pr.baseSha == Some(a.baseSha)
    && step.pr.state != PullRequestMerged && !step.pr.changesRequested && !step.pr.conflicting
    && step.config.policy.revision == a.policyRevision
    && AllGreen(step.pr, step.config.policy.checks)
  }

  // ---- Every other step only carries them along ----

  /** A candidate either is new, with nothing to its credit, or has what it had; an approval may be dropped, or
      marked for revocation. */
  ghost predicate Carried(s: State, t: State, id: BatchId) {
    CandidateOf(t, id).Some? ==>
      var d := CandidateOf(t, id).value;
      || Pristine(d)
      || (CandidateOf(s, id).Some?
          && var c := CandidateOf(s, id).value;
          && d.evidence == c.evidence && d.sha == c.sha && d.baseSha == c.baseSha && d.policyRevision == c.policyRevision
          && (d.approval.Some? ==>
                c.approval.Some?
                && d.approval.value == c.approval.value.(revocationRequested := d.approval.value.revocationRequested)))
  }

  ghost predicate CarriesAll(s: State, o: Outcome) {
    o.Some? ==> forall id :: Carried(s, o.value, id)
  }

  /** What an integration has in memory has nothing to its credit yet. */
  ghost predicate MemBare(s: State) {
    s.integration.Building? && s.integration.mem.candidate.Some? ==> Pristine(s.integration.mem.candidate.value)
  }

  lemma AssemblyCarries(s: State, step: Step)
    requires RecordsOk(s) && MemBare(s) && AssemblyStep(step)
    ensures CarriesAll(s, Apply(s, step)) && (Apply(s, step).Some? ==> MemBare(Apply(s, step).value))
  {
    match step
    case SStart(id, plan, branch, sha, bound, local) => StartCarries(s, id, plan, branch, sha, bound, local);
    case SRecordBranch(branch, sha, policy) => BranchCarries(s, branch, sha, policy);
    case SFinishDryRun(sha) => DryRunCarries(s, sha);
    case SPrepare => PrepareCarries(s);
    case SFailIntegration(culprit, maxAttempts) => FailCarries(s, culprit, maxAttempts);
  }

  lemma StartCarries(s: State, id: BatchId, plan: seq<Task>, branch: nat, sha: Sha, bound: bool, local: bool)
    ensures var o := StartBatch(s, id, plan, branch, sha, bound, local); CarriesAll(s, o) && (o.Some? ==> MemBare(o.value))
  {
  }

  lemma BranchCarries(s: State, branch: nat, sha: Sha, p: Policy)
    requires RecordsOk(s)
    ensures var o := RecordBranch(s, branch, sha, p); CarriesAll(s, o) && (o.Some? ==> MemBare(o.value))
  {
  }

  lemma DryRunCarries(s: State, sha: Sha)
    requires MemBare(s)
    ensures var o := FinishDryRun(s, sha); CarriesAll(s, o) && (o.Some? ==> MemBare(o.value))
  {
  }

  lemma PrepareCarries(s: State)
    requires MemBare(s)
    ensures var o := PrepareBatch(s); CarriesAll(s, o) && (o.Some? ==> MemBare(o.value))
  {
  }

  lemma FailCarries(s: State, culprit: Option<TaskId>, maxAttempts: nat)
    requires MemBare(s)
    ensures var o := FailIntegration(s, culprit, maxAttempts); CarriesAll(s, o) && (o.Some? ==> MemBare(o.value))
  {
  }

  lemma {:induction false} RecoveryKeepsCandidates(s: State, ids: seq<BatchId>, id: BatchId)
    ensures CandidateOf(RecoverEach(s, ids), id) == CandidateOf(s, id)
    decreases |ids|
  {
    if ids != [] { RecoveryKeepsCandidates(RecoverBatch(s, ids[0]), ids[1..], id); }
  }

  lemma RecoveryCarries(s: State, ids: seq<BatchId>)
    ensures CarriesAll(s, Some(RecoverEach(s, ids)))
  {
    forall id ensures Carried(s, RecoverEach(s, ids), id) { RecoveryKeepsCandidates(s, ids, id); }
  }

  /** Installing a revision installs a candidate without any credit. */
  lemma FinalizeCarries(s: State, id: BatchId)
    requires RecordsOk(s)
    ensures CarriesAll(s, FinalizeRevision(s, id))
  {
    if FinalizeRevision(s, id).Some? { assert IntentFits(s.batches[id]); }
  }

  lemma FinishCarries(s: State)
    requires RecordsOk(s)
    ensures CarriesAll(s, FinishRevision(s))
  {
    if FinishRevision(s).Some? {
      var t, u := FinalizeRevision(s, s.integration.id).value, FinishRevision(s).value;
      FinalizeCarries(s, s.integration.id);
      assert u.batches == t.batches;
      forall id ensures Carried(s, u, id) { assert Carried(s, t, id); }
    }
  }

  lemma RecoverCarries(s: State, id: BatchId, branchHead: Sha)
    requires RecordsOk(s)
    ensures CarriesAll(s, RecoverRevision(s, id, branchHead))
  {
    FinalizeCarries(s, id);
  }

  lemma RevisionCarries(s: State, step: Step)
    requires RecordsOk(s) && (step.SFinishRevision? || step.SRecoverRevision?)
    ensures CarriesAll(s, Apply(s, step))
  {
    if step.SFinishRevision? { FinishCarries(s); } else { RecoverCarries(s, step.id, step.branchHead); }
  }

  lemma LockStepCarries(s: State, step: Step)
    requires step.STakeIntegration? || step.SDropIntegration? || step.SCheckOutstanding? || step.SBeginRevision?
    ensures CarriesAll(s, Apply(s, step))
  {
  }

  lemma HousekeepingCarries(s: State, step: Step)
    requires HousekeepingStep(step)
    ensures CarriesAll(s, Apply(s, step))
  {
  }

  lemma PublicationCarries(s: State, step: Step)
    requires step.SPublishUnbound? || step.SPublishFailed? || step.SPublish?
    ensures CarriesAll(s, Apply(s, step))
  {
  }

  lemma QueueCarries(s: State, step: Step)
    requires step.SPublishQueueAttempt? || step.SPublishQueueOutcome? || step.SApproveQueueAttempt? || step.SApproveQueueOutcome?
    ensures CarriesAll(s, Apply(s, step))
  {
  }

  lemma CompletionCarries(s: State, id: BatchId, pr: PullRequest)
    ensures CarriesAll(s, CompleteChangeRequest(s, id, pr))
  {
  }

  lemma ChangesCarry(s: State, step: Step)
    requires step.SApproveUnbound? || step.SRequestChanges? || step.SCompleteChanges?
    ensures CarriesAll(s, Apply(s, step))
  {
    if step.SCompleteChanges? { CompletionCarries(s, step.id, step.pr); }
  }

  lemma ReworkCarries(s: State, step: Step)
    requires step.SReopen? || step.SRecordRevision?
    ensures CarriesAll(s, Apply(s, step))
  {
  }

  lemma ClosingCarries(s: State, step: Step)
    requires step.SClose? || step.SMarkMerged? || step.SSyncLanded?
    ensures CarriesAll(s, Apply(s, step))
  {
  }

  lemma RefreshCarries(s: State, step: Step)
    requires step.SStartRefresh? || step.SQuietRefresh?
    ensures CarriesAll(s, Apply(s, step))
  {
  }

  lemma RefreshEndsCarry(s: State, step: Step)
    requires step.SRejectRefresh? || step.SFinishRefresh?
    ensures CarriesAll(s, Apply(s, step))
  {
  }

  lemma CommitCarries(s: State, id: BatchId, cfg: Config, pr: PullRequest, action: SyncAction)
    requires Held(s, id) && action != Reconcile
    ensures CarriesAll(s, CommitSync(s, id, cfg, pr, action))
  {
  }

  lemma SyncCarries(s: State, step: Step)
    requires step.SSync? && step.action != Reconcile
    ensures CarriesAll(s, Apply(s, step))
  {
    if Apply(s, step).Some? { CommitCarries(s, step.id, step.config, step.pr, step.action); }
  }

  predicate Credits(step: Step) {
    step.SVerify? || step.SApprove? || (step.SSync? && step.action == Reconcile)
  }

  lemma LockedCarries(s: State, step: Step)
    requires LockedBatch(s, step).Some? && !Credits(step)
    ensures CarriesAll(s, Apply(s, step))
  {
    if step.SPublishUnbound? || step.SPublishFailed? || step.SPublish? { PublicationCarries(s, step); }
    else if PublishStep(step) || step.SApproveQueueAttempt? || step.SApproveQueueOutcome? { QueueCarries(s, step); }
    else if ApprovalStep(step) { ChangesCarry(s, step); }
    else if step.SReopen? || step.SRecordRevision? { ReworkCarries(s, step); }
    else if step.SSync? { SyncCarries(s, step); }
    else if step.SClose? || step.SMarkMerged? || step.SSyncLanded? { ClosingCarries(s, step); }
    else if step.SStartRefresh? || step.SQuietRefresh? { RefreshCarries(s, step); }
    else { RefreshEndsCarry(s, step); }
  }

  lemma IntegrationCarries(s: State, step: Step)
    requires RecordsOk(s) && IntegrationStep(step) && !AssemblyStep(step)
    ensures CarriesAll(s, Apply(s, step))
  {
    if step.SRecoverRunning? { RecoveryCarries(s, step.ids); }
    else if step.SFinishRevision? || step.SRecoverRevision? { RevisionCarries(s, step); }
    else { LockStepCarries(s, step); }
  }

  lemma WorkerCarries(s: State, step: Step)
    requires WorkerStep(step)
    ensures CarriesAll(s, Apply(s, step))
  {
    WorkerWritesTasks(s, step);
  }

  lemma PlainStepCarries(s: State, step: Step)
    requires RecordsOk(s) && MemBare(s) && !Credits(step)
    ensures CarriesAll(s, Apply(s, step))
  {
    if WorkerStep(step) { WorkerCarries(s, step); }
    else if AssemblyStep(step) { AssemblyCarries(s, step); }
    else if IntegrationStep(step) { IntegrationCarries(s, step); }
    else if HousekeepingStep(step) { HousekeepingCarries(s, step); }
    else if LockedBatch(s, step).Some? { LockedCarries(s, step); }
  }

  // ---- A verifier's report ----

  lemma {:induction false} LatestAppended(es: seq<Evidence>, e: Evidence)
    ensures Latest(es + [e], e.name) == Some(e)
  {
    assert (es + [e])[|es + [e]| - 1] == e;
  }

  /** What was reported is what is recorded, and what decides from then on. */
  lemma VerificationIsRecorded(s: State, id: BatchId, name: string, passed: bool, binding: Binding, p: Policy, pr: PullRequest)
    requires RecordVerification(s, id, name, passed, binding, p, pr).Some?
    ensures CandidateOf(s, id).Some? && CandidateOf(RecordVerification(s, id, name, passed, binding, p, pr).value, id).Some?
    ensures var t := RecordVerification(s, id, name, passed, binding, p, pr).value;
            var c, d := CandidateOf(s, id).value, CandidateOf(t, id).value;
            && Latest(d.evidence, name) == Some(Evidence(name, passed, c.sha, c.baseSha, c.policyRevision))
            && (Passes(d, name) <==> passed) && (Fails(d, name) <==> !passed)
            && (forall other | other != name :: Latest(d.evidence, other) == Latest(c.evidence, other))
            && d.sha == c.sha && d.baseSha == c.baseSha && d.policyRevision == c.policyRevision && d.approval == c.approval
            && (!passed && name in d.required && !Settled(c.state) ==> d.state == VerificationFailed)
  {
    var c := CandidateOf(s, id).value;
    var e := Evidence(name, passed, c.sha, c.baseSha, c.policyRevision);
    LatestAppended(Without(c.evidence, name), e);
    forall other | other != name ensures Latest(Without(c.evidence, name) + [e], other) == Latest(c.evidence, other) {
      assert (Without(c.evidence, name) + [e])[..|Without(c.evidence, name)|] == Without(c.evidence, name);
      OthersStay(c.evidence, name, other);
    }
    var d := CandidateOf(RecordVerification(s, id, name, passed, binding, p, pr).value, id).value;
    assert d.evidence == Without(c.evidence, name) + [e];
    if !passed && name in d.required {
      var i :| 0 <= i < |d.required| && d.required[i] == name;
      assert Fails(d, d.required[i]);
    }
  }

  lemma {:induction false} WithoutSnoc(es: seq<Evidence>, e: Evidence, name: string)
    ensures Without(es + [e], name) == if e.name == name then Without(es, name) else Without(es, name) + [e]
    decreases |es|
  {
    if es == [] {
      assert es + [e] == [e] && [e][1..] == [];
    } else {
      assert (es + [e])[1..] == es[1..] + [e];
      WithoutSnoc(es[1..], e, name);
    }
  }

  lemma {:induction false} OthersStay(es: seq<Evidence>, name: string, other: string)
    requires other != name
    ensures Latest(Without(es, name), other) == Latest(es, other)
    decreases |es|
  {
    if es != [] {
      var init, e := es[..|es| - 1], es[|es| - 1];
      assert es == init + [e];
      WithoutSnoc(init, e, name);
      OthersStay(init, name, other);
      if e.name != name {
        assert (Without(init, name) + [e])[..|Without(init, name)|] == Without(init, name);
      }
    }
  }

  lemma VerifiedComesFrom(s: State, step: Step, e: Evidence)
    requires step.SVerify? && Apply(s, step).Some? && e in EvidenceIn(Apply(s, step).value, step.id)
    ensures e in EvidenceIn(s, step.id) || Verifies(s, step, step.id, e)
  {
    WithoutIsSubset(EvidenceIn(s, step.id), step.name);
  }

  // ---- What the forge shows ----

  lemma {:induction false} ObservedChecksAre(c: Candidate, pr: PullRequest, checks: seq<string>, e: Evidence)
    requires e in ObservedChecks(c, pr, checks)
    ensures IsOf(e, c)
    ensures exists k | 0 <= k < |checks| ::
              e.name == "github-check:" + checks[k]
              && (if e.passed then AllRunsSucceeded(pr, checks[k]) else SomeRunErrored(pr, checks[k]) && !AllRunsSucceeded(pr, checks[k]))
    decreases |checks|
  {
    var rest := ObservedChecks(c, pr, checks[1..]);
    if e in rest {
      ObservedChecksAre(c, pr, checks[1..], e);
      var k :| 0 <= k < |checks[1..]| && e.name == "github-check:" + checks[1..][k]
               && (if e.passed then AllRunsSucceeded(pr, checks[1..][k])
                   else SomeRunErrored(pr, checks[1..][k]) && !AllRunsSucceeded(pr, checks[1..][k]));
      assert checks[k + 1] == checks[1..][k];
    } else {
      assert e.name == "github-check:" + checks[0];
    }
  }

  lemma {:induction false} GreenIsObserved(c: Candidate, pr: PullRequest, checks: seq<string>, k: nat)
    requires k < |checks| && AllRunsSucceeded(pr, checks[k])
    ensures Evidence("github-check:" + checks[k], true, c.sha, c.baseSha, c.policyRevision) in ObservedChecks(c, pr, checks)
    decreases |checks|
  {
    if k > 0 { GreenIsObserved(c, pr, checks[1..], k - 1); }
  }

  lemma {:induction false} ChecksAreCleared(es: seq<Evidence>, checks: seq<string>, check: string)
    requires check in checks
    ensures forall e | e in WithoutChecks(es, checks) :: e.name != "github-check:" + check
    decreases |es|
  {
    var name := "github-check:" + check;
    assert name[..|"github-check:"|] == "github-check:" && name[|"github-check:"|..] == check;
    if es != [] { ChecksAreCleared(es[1..], checks, check); }
  }

  lemma {:induction false} LatestIsThere(es: seq<Evidence>, name: string)
    ensures Latest(es, name).Some? <==> exists i | 0 <= i < |es| :: es[i].name == name
  {
    if es != [] && es[|es| - 1].name != name { LatestIsThere(es[..|es| - 1], name); }
  }

  /** After an observation a check the policy names has passed exactly if it ran and every run of it succeeded;
      in particular one that is still running has not. */
  lemma ObservedExactly(c: Candidate, p: Policy, pr: PullRequest, k: nat)
    requires k < |p.checks|
    ensures Passes(Observed(c, p, pr), "github-check:" + p.checks[k]) <==> AllRunsSucceeded(pr, p.checks[k])
  {
    var name, es := "github-check:" + p.checks[k], Observed(c, p, pr).evidence;
    var old_, new_ := WithoutChecks(c.evidence, p.checks), ObservedChecks(c, pr, p.checks);
    ChecksAreCleared(c.evidence, p.checks, p.checks[k]);
    LatestIsThere(es, name);
    LatestIsRecorded(es, name);
    forall e | e in es && e.name == name ensures e.passed <==> AllRunsSucceeded(pr, p.checks[k]) {
      assert e in new_;
      ObservedChecksAre(c, pr, p.checks, e);
      var m :| 0 <= m < |p.checks| && e.name == "github-check:" + p.checks[m]
               && (if e.passed then AllRunsSucceeded(pr, p.checks[m])
                   else SomeRunErrored(pr, p.checks[m]) && !AllRunsSucceeded(pr, p.checks[m]));
      SameCheck(p.checks[m], p.checks[k]);
    }
    if AllRunsSucceeded(pr, p.checks[k]) {
      GreenIsObserved(c, pr, p.checks, k);
      var e := Evidence(name, true, c.sha, c.baseSha, c.policyRevision);
      assert e in es;
      var i :| 0 <= i < |es| && es[i] == e;
    }
  }

  lemma SameCheck(a: string, b: string)
    requires "github-check:" + a == "github-check:" + b
    ensures a == b
  {
    assert ("github-check:" + a)[|"github-check:"|..] == a && ("github-check:" + b)[|"github-check:"|..] == b;
  }

  lemma ObservedComesFrom(c: Candidate, p: Policy, pr: PullRequest, e: Evidence)
    requires e in Observed(c, p, pr).evidence
    ensures e in c.evidence
            || (IsOf(e, c) && exists k | 0 <= k < |p.checks| ::
                  e.name == "github-check:" + p.checks[k]
                  && (if e.passed then AllRunsSucceeded(pr, p.checks[k]) else SomeRunErrored(pr, p.checks[k])))
  {
    WithoutChecksIsSubset(c.evidence, p.checks);
    if e in ObservedChecks(c, pr, p.checks) {
      ObservedChecksAre(c, pr, p.checks, e);
      var m :| 0 <= m < |p.checks| && e.name == "github-check:" + p.checks[m]
               && (if e.passed then AllRunsSucceeded(pr, p.checks[m])
                   else SomeRunErrored(pr, p.checks[m]) && !AllRunsSucceeded(pr, p.checks[m]));
    }
  }

  lemma ConfirmedOrDropped(o: Candidate)
    ensures var k := ConfirmOrDrop(o);
            && k.evidence == o.evidence && k.sha == o.sha && k.baseSha == o.baseSha && k.policyRevision == o.policyRevision
            && (k.approval.Some? ==>
                  o.approval.Some? && !o.approval.value.revocationRequested
                  && k.approval.value == o.approval.value.(confirmed := true))
  {
  }

  /** What a reconciliation makes of a candidate, apart from its results. */
  ghost predicate Judged(c: Candidate, d: Candidate) {
    && d.sha == c.sha && d.baseSha == c.baseSha && d.policyRevision == c.policyRevision
    && (d.approval.Some? ==>
          c.approval.Some? && !c.approval.value.revocationRequested
          && d.approval.value == c.approval.value.(confirmed := true))
  }

  lemma ObservedCandidate(b: Batch, cfg: Config, pr: PullRequest)
    requires b.candidate.Some?
    ensures ChecksObserved(b, cfg, pr).candidate.Some?
    ensures var c, d := b.candidate.value, ChecksObserved(b, cfg, pr).candidate.value;
            Judged(c, d) && d.evidence == Observed(c, cfg.policy, pr).evidence
  {
    ConfirmedOrDropped(Observed(b.candidate.value, cfg.policy, pr));
  }

  /** The candidate after a reconciliation: sent back without its approval and otherwise as it was, or, if the
      pull request is exactly the candidate's, with what the forge shows of its checks. */
  lemma ReconciledCandidate(b: Batch, cfg: Config, pr: PullRequest)
    requires b.candidate.Some?
    ensures Reconciled(b, cfg, pr).candidate.Some?
    ensures var c, d := b.candidate.value, Reconciled(b, cfg, pr).candidate.value;
            && Judged(c, d)
            && ((d.evidence == c.evidence && d.approval.None?)
                || (d.evidence == Observed(c, cfg.policy, pr).evidence && pr.head == Some(c.sha) && pr.baseSha == Some(c.baseSha)))
  {
    ObservedCandidate(b, cfg, pr);
  }

  lemma ReconcileComesFrom(s: State, step: Step, e: Evidence)
    requires step.SSync? && step.action == Reconcile && Apply(s, step).Some? && e in EvidenceIn(Apply(s, step).value, step.id)
    ensures e in EvidenceIn(s, step.id) || Observes(s, step, step.id, e)
  {
    var b := s.batches[step.id];
    ReconcileApplies(s, step);
    ReconciledCandidate(b, step.config, step.pr);
    if e !in EvidenceIn(s, step.id) { ObservedComesFrom(b.candidate.value, step.config.policy, step.pr, e); }
  }

  lemma ReconcileApplies(s: State, step: Step)
    requires step.SSync? && step.action == Reconcile && Apply(s, step).Some?
    ensures Held(s, step.id) && s.batches[step.id].candidate.Some?
    ensures Apply(s, step).value == Put(s, step.id, Reconciled(s.batches[step.id], step.config, step.pr))
    ensures SyncGuard(s.views[step.id])
            && SyncDecided(s.views[step.id], step.config, step.pr, step.proven, step.disabled, Reconcile)
  {
    ApprovalSafety.SyncedIsDecided(s, step.id, step.config, step.pr, step.proven, step.disabled, Reconcile);
  }

  // ---- Every result was reported ----

  lemma StepCarries(s: State, step: Step, id: BatchId)
    requires RecordsOk(s) && MemBare(s) && !Credits(step) && Apply(s, step).Some?
    ensures Carried(s, Apply(s, step).value, id)
  {
    PlainStepCarries(s, step);
  }

  lemma VerifyingKeeps(s: State, step: Step)
    requires step.SVerify? && Apply(s, step).Some?
    ensures ApprovalIn(Apply(s, step).value, step.id) == ApprovalIn(s, step.id)
  {
  }

  lemma StepReports(s: State, step: Step, id: BatchId, e: Evidence)
    requires RecordsOk(s) && MemBare(s) && Apply(s, step).Some? && e in EvidenceIn(Apply(s, step).value, id)
    ensures e in EvidenceIn(s, id) || Reports(s, step, id, e)
  {
    if !Credits(step) {
      StepCarries(s, step, id);
    } else if step.id != id {
      CreditsOne(s, step, id);
    } else if step.SVerify? {
      VerifiedComesFrom(s, step, e);
    } else if step.SSync? {
      ReconcileComesFrom(s, step, e);
    } else {
      ApprovingKeeps(s, step);
    }
  }

  lemma CreditsOne(s: State, step: Step, id: BatchId)
    requires Credits(step) && Apply(s, step).Some? && step.id != id
    ensures CandidateOf(Apply(s, step).value, id) == CandidateOf(s, id)
  {
    if step.SSync? { ReconcileApplies(s, step); }
  }

  lemma ApprovingKeeps(s: State, step: Step)
    requires step.SApprove? && Apply(s, step).Some?
    ensures CandidateOf(s, step.id).Some? && CandidateOf(Apply(s, step).value, step.id).Some?
    ensures var c, d := CandidateOf(s, step.id).value, CandidateOf(Apply(s, step).value, step.id).value;
            && d.evidence == c.evidence && d.sha == c.sha && d.baseSha == c.baseSha && d.policyRevision == c.policyRevision
            && (d.approval == c.approval || d.approval == Some(Approval(c.sha, c.baseSha, c.policyRevision, step.actor, false, false)))
  {
  }

  lemma StepKeepsMemBare(s: State, step: Step)
    requires RecordsOk(s) && MemBare(s) && Apply(s, step).Some?
    ensures MemBare(Apply(s, step).value)
  {
    if AssemblyStep(step) { AssemblyCarries(s, step); }
    else if WorkerStep(step) { WorkerWritesTasks(s, step); }
    else if IntegrationStep(step) { SessionMoves(s, step); }
    else if HousekeepingStep(step) { HousekeepingSession(s, step); }
    else if LockedBatch(s, step).Some? { LockedStepWrites(s, step); }
  }

  lemma SessionMoves(s: State, step: Step)
    requires IntegrationStep(step) && !AssemblyStep(step) && Apply(s, step).Some?
    ensures var t := Apply(s, step).value; t.integration.Building? ==> t.integration == s.integration
  {
    if step.SRecoverRunning? { RecoverySession(s, step.ids); }
  }

  lemma {:induction false} RecoverySession(s: State, ids: seq<BatchId>)
    ensures RecoverEach(s, ids).integration == s.integration
    decreases |ids|
  {
    if ids != [] { RecoverySession(RecoverBatch(s, ids[0]), ids[1..]); }
  }

  lemma HousekeepingSession(s: State, step: Step)
    requires HousekeepingStep(step) && Apply(s, step).Some?
    ensures var t := Apply(s, step).value; t.integration.Building? ==> t.integration == s.integration
  {
  }

  lemma {:induction false} RunKeepsMemBare(serialized: seq<string>, states: seq<State>, steps: seq<Step>, k: nat)
    requires Run(serialized, states, steps) && k < |states|
    ensures MemBare(states[k])
  {
    if k > 0 {
      RunKeepsMemBare(serialized, states, steps, k - 1);
      RunKeepsRecords(serialized, states, steps, k - 1);
      StepOf(serialized, states, steps, k - 1);
      StepKeepsMemBare(states[k - 1], steps[k - 1]);
    }
  }

  lemma RunStepReports(serialized: seq<string>, states: seq<State>, steps: seq<Step>, i: nat, id: BatchId, e: Evidence)
    requires Run(serialized, states, steps) && i < |steps| && e in EvidenceIn(states[i + 1], id)
    ensures e in EvidenceIn(states[i], id) || Reports(states[i], steps[i], id, e)
  {
    RunKeepsMemBare(serialized, states, steps, i);
    RunKeepsRecords(serialized, states, steps, i);
    StepOf(serialized, states, steps, i);
    StepReports(states[i], steps[i], id, e);
  }

  /** Each result after the step was there before it, or is reported by it. */
  ghost predicate ReportsNew(s: State, t: State, step: Step, id: BatchId) {
    forall e | e in EvidenceIn(t, id) :: e in EvidenceIn(s, id) || Reports(s, step, id, e)
  }

  ghost predicate AllReported(states: seq<State>, steps: seq<Step>, id: BatchId) {
    |states| == |steps| + 1 && EvidenceIn(states[0], id) == []
    && forall i | 0 <= i < |steps| :: ReportsNew(states[i], states[i + 1], steps[i], id)
  }

  lemma RunReports(serialized: seq<string>, states: seq<State>, steps: seq<Step>, id: BatchId)
    requires Run(serialized, states, steps)
    ensures AllReported(states, steps, id)
  {
    forall i | 0 <= i < |steps| ensures ReportsNew(states[i], states[i + 1], steps[i], id) {
      forall e | e in EvidenceIn(states[i + 1], id) ensures e in EvidenceIn(states[i], id) || Reports(states[i], steps[i], id, e) {
        RunStepReports(serialized, states, steps, i, id, e);
      }
    }
  }

  lemma {:induction false} ReportOf(states: seq<State>, steps: seq<Step>, k: nat, id: BatchId, e: Evidence) returns (j: nat)
    requires AllReported(states, steps, id) && k < |states| && e in EvidenceIn(states[k], id)
    ensures j < k && Reports(states[j], steps[j], id, e)
    ensures forall i | j < i <= k :: e in EvidenceIn(states[i], id)
  {
    assert k > 0;
    assert ReportsNew(states[k - 1], states[k - 1 + 1], steps[k - 1], id);
    j := k - 1;
    if e in EvidenceIn(states[k - 1], id) { j := ReportOf(states, steps, k - 1, id, e); }
  }

  /** In every run each result on a candidate was reported at some step, as it stands, and has been there ever
      since. */
  lemma EvidenceHasItsStep(serialized: seq<string>, states: seq<State>, steps: seq<Step>, k: nat, id: BatchId, e: Evidence)
    returns (j: nat)
    requires Run(serialized, states, steps) && k < |states| && e in EvidenceIn(states[k], id)
    ensures j < k && Reports(states[j], steps[j], id, e)
    ensures forall i | j < i <= k :: e in EvidenceIn(states[i], id)
  {
    RunReports(serialized, states, steps, id);
    j := ReportOf(states, steps, k, id, e);
  }

  // ---- Every approval was given ----

  lemma ApproverStands(s: State, step: Step)
    requires RecordsOk(s) && step.SApprove? && Apply(s, step).Some?
    ensures var c := s.batches[step.id].candidate.value;
            step.id in s.batches && s.batches[step.id].candidate.Some?
            && forall i | 0 <= i < |c.required| :: PassedFor(c, c.required[i])
  {
    UsableIsActable(s, step.id);
    var c := s.batches[step.id].candidate.value;
    forall i | 0 <= i < |c.required| ensures PassedFor(c, c.required[i]) {
      assert Passes(c, c.required[i]);
      LatestIsRecorded(c.evidence, c.required[i]);
      assert EvidenceBound(c, Latest(c.evidence, c.required[i]).value);
    }
  }

  lemma ApprovingApproves(s: State, step: Step)
    requires RecordsOk(s) && step.SApprove? && Apply(s, step).Some?
    ensures step.id in s.batches && s.batches[step.id].candidate.Some?
    ensures var c := s.batches[step.id].candidate.value;
            Approves(s, step, step.id, Approval(c.sha, c.baseSha, c.policyRevision, step.actor, false, false))
  {
    ApproverStands(s, step);
    var v := s.views[step.id].candidate.value;
    GreenIsPassed(step.pr, step.policy.checks);
  }

  /** An approval that outlives a reconciliation was found to stand. */
  lemma ReconcilingConfirms(s: State, step: Step, a: Approval)
    requires RecordsOk(s) && step.SSync? && step.action == Reconcile && Apply(s, step).Some?
    requires ApprovalIn(Apply(s, step).value, step.id) == Some(a)
    ensures a.confirmed && ApprovalIn(s, step.id).Some? && SameApproval(ApprovalIn(s, step.id).value, a)
    ensures Confirms(s, step, step.id, a)
  {
    var b, v := s.batches[step.id], s.views[step.id];
    ReconcileApplies(s, step);
    ReconciledCandidate(b, step.config, step.pr);
    SyncedIsCurrent(s, step.id);
    StandingIsValid(v, step.config, step.pr, step.proven, step.disabled);
    assert ApprovalBound(b.candidate.value);
  }

  lemma SyncedIsCurrent(s: State, id: BatchId)
    requires RecordsOk(s) && Held(s, id) && SyncGuard(s.views[id]) && ApprovalIn(s, id).Some?
    ensures s.views[id] == s.batches[id] && SoundCandidate(s.batches[id])
  {
    SyncedIsAssembled(s.views[id]);
    ViewIsStored(s, id);
  }

  lemma StandingIsValid(v: Batch, cfg: Config, pr: PullRequest, proven: bool, disabled: bool)
    requires SyncDecided(v, cfg, pr, proven, disabled, Reconcile) && v.candidate.Some?
    requires v.candidate.value.approval.Some? && !v.candidate.value.approval.value.revocationRequested
    ensures var c := v.candidate.value;
            && cfg.policy.required && cfg.policy.revision == c.policyRevision
            && pr.state != PullRequestMerged && pr.head == Some(c.sha) && pr.baseSha == Some(c.baseSha)
            && pr.baseBranch == Some(v.baseBranch) && !pr.changesRequested && !pr.conflicting
            && AllGreen(pr, cfg.policy.checks)
  {
    ReconcileIsDecided(v, cfg, pr, proven, disabled);
    GreenIsPassed(pr, cfg.policy.checks);
  }

  lemma ReconcileIsDecided(v: Batch, cfg: Config, pr: PullRequest, proven: bool, disabled: bool)
    requires SyncDecided(v, cfg, pr, proven, disabled, Reconcile)
    ensures v.candidate.Some? && pr.state != PullRequestMerged
    ensures ApprovalInvalidated(v, cfg.policy, pr) ==> v.candidate.value.approval.value.revocationRequested
  {
  }

  /** From `a` to `b`: still the same approval, confirmed only by the forge. */
  ghost predicate SameUnlessConfirmed(s: State, step: Step, id: BatchId, a: Approval, b: Approval) {
    SameApproval(a, b) && (b.confirmed ==> a.confirmed || Confirms(s, step, id, b))
  }

  lemma StepApproves(s: State, step: Step, id: BatchId, a: Approval)
    requires RecordsOk(s) && MemBare(s) && Apply(s, step).Some? && ApprovalIn(Apply(s, step).value, id) == Some(a)
    ensures || (ApprovalIn(s, id).Some? && SameUnlessConfirmed(s, step, id, ApprovalIn(s, id).value, a))
            || (Approves(s, step, id, a) && !a.confirmed)
  {
    if !Credits(step) {
      StepCarries(s, step, id);
    } else if step.id != id {
      CreditsOne(s, step, id);
    } else if step.SVerify? {
      VerifyingKeeps(s, step);
    } else if step.SSync? {
      ReconcilingConfirms(s, step, a);
    } else {
      ApprovingKeeps(s, step);
      ApprovingApproves(s, step);
    }
  }

  lemma RunStepApproves(serialized: seq<string>, states: seq<State>, steps: seq<Step>, i: nat, id: BatchId, a: Approval)
    requires Run(serialized, states, steps) && i < |steps| && ApprovalIn(states[i + 1], id) == Some(a)
    ensures || (ApprovalIn(states[i], id).Some? && SameUnlessConfirmed(states[i], steps[i], id, ApprovalIn(states[i], id).value, a))
            || (Approves(states[i], steps[i], id, a) && !a.confirmed)
  {
    RunKeepsMemBare(serialized, states, steps, i);
    RunKeepsRecords(serialized, states, steps, i);
    StepOf(serialized, states, steps, i);
    StepApproves(states[i], steps[i], id, a);
  }

  /** The approval stands here, by the same actor and for the same candidate. */
  predicate StandsAt(s: State, id: BatchId, a: Approval) {
    ApprovalIn(s, id).Some? && SameApproval(ApprovalIn(s, id).value, a)
  }

  lemma SameIsApproved(s: State, step: Step, id: BatchId, a: Approval, b: Approval)
    requires SameApproval(a, b)
    ensures Approves(s, step, id, a) <==> Approves(s, step, id, b)
    ensures Confirms(s, step, id, a) <==> Confirms(s, step, id, b)
  {
  }

  /** An approval after the step was there before it, confirmed perhaps by it, or is given by it. */
  ghost predicate ApprovesNew(s: State, t: State, step: Step, id: BatchId) {
    ApprovalIn(t, id).Some? ==>
      var a := ApprovalIn(t, id).value;
      || (ApprovalIn(s, id).Some? && SameUnlessConfirmed(s, step, id, ApprovalIn(s, id).value, a))
      || (Approves(s, step, id, a) && !a.confirmed)
  }

  ghost predicate AllApproved(states: seq<State>, steps: seq<Step>, id: BatchId) {
    |states| == |steps| + 1 && ApprovalIn(states[0], id).None?
    && forall i | 0 <= i < |steps| :: ApprovesNew(states[i], states[i + 1], steps[i], id)
  }

  lemma RunApproves(serialized: seq<string>, states: seq<State>, steps: seq<Step>, id: BatchId)
    requires Run(serialized, states, steps)
    ensures AllApproved(states, steps, id)
  {
    forall i | 0 <= i < |steps| ensures ApprovesNew(states[i], states[i + 1], steps[i], id) {
      if ApprovalIn(states[i + 1], id).Some? {
        RunStepApproves(serialized, states, steps, i, id, ApprovalIn(states[i + 1], id).value);
      }
    }
  }

  lemma {:induction false} ApprovalOf(states: seq<State>, steps: seq<Step>, k: nat, id: BatchId, a: Approval) returns (j: nat)
    requires AllApproved(states, steps, id) && k < |states| && StandsAt(states[k], id, a)
    ensures j < k && Approves(states[j], steps[j], id, a)
    ensures forall i | j < i <= k :: StandsAt(states[i], id, a)
  {
    assert k > 0;
    assert ApprovesNew(states[k - 1], states[k - 1 + 1], steps[k - 1], id);
    if StandsAt(states[k - 1], id, a) {
      j := ApprovalOf(states, steps, k - 1, id, a);
    } else {
      j := k - 1;
      SameIsApproved(states[j], steps[j], id, a, ApprovalIn(states[k], id).value);
    }
  }

  lemma {:induction false} ConfirmationOf(states: seq<State>, steps: seq<Step>, k: nat, id: BatchId, a: Approval) returns (m: nat)
    requires AllApproved(states, steps, id) && k < |states| && ApprovalIn(states[k], id) == Some(a) && a.confirmed
    ensures m < k && Confirms(states[m], steps[m], id, a)
    ensures forall i | m <= i <= k :: StandsAt(states[i], id, a)
  {
    assert k > 0;
    assert ApprovesNew(states[k - 1], states[k - 1 + 1], steps[k - 1], id);
    var b := ApprovalIn(states[k - 1], id).value;
    if b.confirmed {
      m := ConfirmationOf(states, steps, k - 1, id, b);
      SameIsApproved(states[m], steps[m], id, a, b);
    } else {
      m := k - 1;
    }
  }

  /** In every run each approval was given at some step by the actor it names, when nothing stood against it,
      and has stood ever since. */
  lemma ApprovalHasItsStep(serialized: seq<string>, states: seq<State>, steps: seq<Step>, k: nat, id: BatchId, a: Approval)
    returns (j: nat)
    requires Run(serialized, states, steps) && k < |states| && StandsAt(states[k], id, a)
    ensures j < k && Approves(states[j], steps[j], id, a)
    ensures forall i | j < i <= k :: StandsAt(states[i], id, a)
  {
    RunApproves(serialized, states, steps, id);
    j := ApprovalOf(states, steps, k, id, a);
  }

  /** And a confirmed one was confirmed at some step by what the forge showed, and has stood since. */
  lemma ConfirmationHasItsStep(serialized: seq<string>, states: seq<State>, steps: seq<Step>, k: nat, id: BatchId, a: Approval)
    returns (m: nat)
    requires Run(serialized, states, steps) && k < |states| && ApprovalIn(states[k], id) == Some(a) && a.confirmed
    ensures m < k && Confirms(states[m], steps[m], id, a)
    ensures forall i | m <= i <= k :: StandsAt(states[i], id, a)
  {
    RunApproves(serialized, states, steps, id);
    m := ConfirmationOf(states, steps, k, id, a);
  }

  // ---- What a merge rests on ----

  /** By step `j` a pass for this name was reported on exactly this candidate, and was never taken back. */
  ghost predicate PassReported(states: seq<State>, steps: seq<Step>, j: nat, id: BatchId, c: Candidate, name: string)
    requires j < |states| == |steps| + 1
  {
    exists i: nat, e: Evidence | i < j ::
      e.name == name && e.passed && IsOf(e, c) && Reports(states[i], steps[i], id, e)
      && forall n | i < n <= j :: e in EvidenceIn(states[n], id)
  }

  /** By step `j` this candidate was approved, and later confirmed, and the approval was never taken back. */
  ghost predicate ApprovalReported(states: seq<State>, steps: seq<Step>, j: nat, id: BatchId, a: Approval)
    requires j < |states| == |steps| + 1
  {
    exists i: nat, m: nat | i < m < j ::
      Approves(states[i], steps[i], id, a) && Confirms(states[m], steps[m], id, a)
      && forall n | i < n <= j :: StandsAt(states[n], id, a)
  }

  lemma PassWasReported(serialized: seq<string>, states: seq<State>, steps: seq<Step>, j: nat, id: BatchId, name: string)
    requires Run(serialized, states, steps) && j < |states| && CandidateOf(states[j], id).Some?
    requires PassedFor(CandidateOf(states[j], id).value, name)
    ensures PassReported(states, steps, j, id, CandidateOf(states[j], id).value, name)
  {
    var c := CandidateOf(states[j], id).value;
    var e :| e in c.evidence && e.name == name && e.passed && IsOf(e, c);
    var i := EvidenceHasItsStep(serialized, states, steps, j, id, e);
  }

  lemma ApprovalWasReported(serialized: seq<string>, states: seq<State>, steps: seq<Step>, j: nat, id: BatchId, a: Approval)
    requires Run(serialized, states, steps) && j < |states| && ApprovalIn(states[j], id) == Some(a) && a.confirmed
    ensures ApprovalReported(states, steps, j, id, a)
  {
    var m := ConfirmationHasItsStep(serialized, states, steps, j, id, a);
    assert StandsAt(states[m], id, a);
    var i := ApprovalHasItsStep(serialized, states, steps, m, id, a);
    forall n | i < n <= j ensures StandsAt(states[n], id, a) { if n > m { assert m <= n <= j; } }
  }

  /** In every run, whatever is merged with a candidate was, before the step that merged it, reported passed on
      exactly that candidate for every result it wants, by a verifier or the forge, and approved and confirmed
      on it; and none of this was taken back in between. */
  lemma MergeRestsOnReports(serialized: seq<string>, states: seq<State>, steps: seq<Step>, k: nat, id: BatchId)
    returns (j: nat)
    requires Run(serialized, states, steps) && k < |states| && ApprovalSafety.MergedIn(states[k], id)
    ensures j < k && ApprovalSafety.MergedIn(states[j + 1], id) && !ApprovalSafety.MergedIn(states[j], id)
    ensures ApprovalSafety.MergeRestsOnApproval(states[j], states[j + 1], steps[j], id)
    ensures CandidateOf(states[j], id).Some? ==>
              var c := CandidateOf(states[j], id).value;
              && c.approval.Some? && ApprovalReported(states, steps, j, id, c.approval.value)
              && forall n | 0 <= n < |c.required| :: PassReported(states, steps, j, id, c, c.required[n])
  {
    j := ApprovalSafety.MergeHasItsStep(serialized, states, steps, k, id);
    if CandidateOf(states[j], id).Some? {
      var c := CandidateOf(states[j], id).value;
      ApprovalWasReported(serialized, states, steps, j, id, c.approval.value);
      forall n | 0 <= n < |c.required| ensures PassReported(states, steps, j, id, c, c.required[n]) {
        PassWasReported(serialized, states, steps, j, id, c.required[n]);
      }
    }
  }
}
