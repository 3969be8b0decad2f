/**
 The durable records of broker state (src/types.ts). Commits, refs, actors and identifiers are
 opaque, so each is a number that is only ever compared; task identifiers are also ordered, as
 the scheduler's last tie-break needs. Instants are readings of one monotone clock.
 */
module Records {
  import opened Common

  type Sha = nat
  type TaskId = nat
  type BatchId = nat
  type Actor = nat
  type Label = nat
  type Instant = nat

  datatype TaskStatus =
    | Registered | Claimed | Submitted | Integrating | Batched | Published | Merged | Failed | Cancelled

  datatype Lease = Lease(token: nat, holder: Actor, expiresAt: Instant)

  /** What a worker submits: the commits, the files they change, and when. */
  datatype Receipt = Receipt(commits: seq<Sha>, actualPaths: seq<string>, submittedAt: Option<Instant>)

  datatype Task = Task(
    id: TaskId,
    status: TaskStatus,
    priority: int,
    baseSha: Sha,
    expectedPaths: seq<string>,
    dependsOn: seq<TaskId>,
    receipt: Receipt,
    lease: Option<Lease>,
    batchId: Option<BatchId>,
    attempts: nat,
    updatedAt: Instant,
    mergedAt: Option<Instant>)

  /** The approval policy in force when an operation runs; it may differ from call to call. */
  datatype Policy = Policy(
    required: bool,
    revision: Label,
    verifications: seq<string>,
    checks: seq<string>,
    authorized: seq<Actor>)

  datatype CandidateState =
    | Verifying | ReadyForApproval | Approved | Merging | ChangesRequested
    | VerificationFailed | Superseded | Blocked | Abandoned | CandidateMerged

  datatype Evidence = Evidence(name: string, passed: bool, sha: Sha, baseSha: Sha, policyRevision: Label)

  datatype Approval = Approval(
    sha: Sha, baseSha: Sha, policyRevision: Label, actor: Actor,
    confirmed: bool, revocationRequested: bool)

  datatype Candidate = Candidate(
    revision: nat,
    sha: Sha,
    baseSha: Sha,
    policyRevision: Label,
    state: CandidateState,
    required: seq<string>,
    evidence: seq<Evidence>,
    approval: Option<Approval>)

  datatype BatchStatus = Running | Verified | Prepared | BatchPublished | BatchMerged | Closed | BatchFailed

  /** The tuple a caller names when it verifies, approves or rejects a candidate. */
  datatype Binding = Binding(sha: Sha, baseSha: Sha, policyRevision: Option<Label>)

  datatype RefreshClose = RefreshClose(pullRequest: nat, targetBaseSha: Sha, nonce: nat)

  /** Recorded before a revised candidate's branch is moved. `next` is the batch to install. */
  datatype RevisionIntent = RevisionIntent(
    revision: nat,
    taskId: TaskId,
    previousSha: Sha,
    candidateSha: Sha,
    next: Batch,
    revised: Receipt)

  datatype Batch = Batch(
    status: BatchStatus,
    taskIds: seq<TaskId>,
    baseBranch: nat,
    baseSha: Sha,
    headSha: Option<Sha>,
    branchName: Option<nat>,
    candidate: Option<Candidate>,
    history: seq<Candidate>,
    pullRequest: Option<nat>,
    autoMergeEnabled: Option<bool>,
    autoMergePending: bool,
    changeRequest: Option<Binding>,
    refreshRequired: bool,
    refreshClose: Option<RefreshClose>,
    revision: Option<RevisionIntent>,
    targetBound: bool,
    localOnly: bool,
    createdAt: Instant,
    finishedAt: Option<Instant>)

  datatype Verdict = Succeeded | Errored | Pending

  datatype CheckRun = CheckRun(name: string, verdict: Verdict)

  datatype PullRequestState = Open | PullRequestMerged | PullRequestClosed | Unrecognised

  /** One answer of the forge about a pull request. Every field is an arbitrary input. */
  datatype PullRequest = PullRequest(
    state: PullRequestState,
    head: Option<Sha>,
    baseBranch: Option<nat>,
    baseSha: Option<Sha>,
    autoMerge: Option<bool>,
    changesRequested: bool,
    conflicting: bool,
    checks: seq<CheckRun>)
}
