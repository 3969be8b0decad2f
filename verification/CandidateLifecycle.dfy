/**
 Candidate records and their transitions (src/candidate-lifecycle.ts), with the one property every
 transition keeps: evidence and approval always belong to the candidate's own tuple, and an
 approval is never held without every required verification passed.
 */
module CandidateLifecycle {
  import opened Common
  import opened Records

  function CheckName(check: string): string {
    "github-check:" + check
  }

  function RequiredEvidence(p: Policy): seq<string> {
    p.verifications + seq(|p.checks|, i requires 0 <= i < |p.checks| => CheckName(p.checks[i]))
  }

  /** The entry that wins when evidence is collected into a map by name: the last one. */
  function Latest(es: seq<Evidence>, name: string): Option<Evidence> {
    if es == [] then None
    else if es[|es| - 1].name == name then Some(es[|es| - 1])
    else Latest(es[..|es| - 1], name)
  }

  predicate Passes(c: Candidate, name: string) {
    var e := Latest(c.evidence, name);
    e.Some? && e.value.passed
  }

  predicate Fails(c: Candidate, name: string) {
    var e := Latest(c.evidence, name);
    e.Some? && !e.value.passed
  }

  predicate AllPassed(c: Candidate) {
    forall i | 0 <= i < |c.required| :: Passes(c, c.required[i])
  }

  predicate Settled(state: CandidateState) {
    state == ChangesRequested || state == Blocked || state == Superseded || state == Abandoned || state == CandidateMerged
  }

  function StateOf(c: Candidate): CandidateState {
    if Settled(c.state) then c.state
    else if exists i | 0 <= i < |c.required| :: Fails(c, c.required[i]) then VerificationFailed
    else if AllPassed(c) then
      if c.approval.Some? then (if c.state == Merging then Merging else Approved) else ReadyForApproval
    else Verifying
  }

  function Recomputed(c: Candidate): Candidate {
    c.(state := StateOf(c))
  }

  function MakeCandidate(p: Policy, sha: Sha, baseSha: Sha, revision: nat): Candidate {
    Recomputed(Candidate(revision, sha, baseSha, p.revision, Verifying, RequiredEvidence(p), [], None))
  }

  predicate BindingMatches(c: Candidate, b: Binding) {
    b.sha == c.sha && b.baseSha == c.baseSha && (b.policyRevision.Some? ==> b.policyRevision.value == c.policyRevision)
  }

  /** The candidate's required names are the policy's, as both call sites compare them. */
  predicate PolicyMatches(p: Policy, c: Candidate) {
    var required := RequiredEvidence(p);
    && c.policyRevision == p.revision
    && |c.required| == |required|
    && forall i | 0 <= i < |c.required| :: c.required[i] in required
  }

  predicate ActorAuthorized(p: Policy, c: Candidate) {
    c.approval.None? || p.authorized == [] || c.approval.value.actor in p.authorized
  }

  predicate PolicyCurrent(p: Policy, c: Candidate) {
    PolicyMatches(p, c) && ActorAuthorized(p, c)
  }

  function Without(es: seq<Evidence>, name: string): seq<Evidence> {
    if es == [] then []
    else if es[0].name == name then Without(es[1..], name)
    else [es[0]] + Without(es[1..], name)
  }

  function UpsertEvidence(c: Candidate, e: Evidence): Candidate {
    Recomputed(c.(evidence := Without(c.evidence, e.name) + [e]))
  }

  function Approve(c: Candidate, p: Policy, actor: Actor): Candidate {
    if ApprovalCurrent(c, p) then c
    else c.(approval := Some(Approval(c.sha, c.baseSha, c.policyRevision, actor, false, false)), state := Approved)
  }

  predicate ApprovalCurrent(c: Candidate, p: Policy) {
    && c.approval.Some?
    && var a := c.approval.value;
    && !a.revocationRequested && ApprovalBound(c)
    && (p.authorized == [] || a.actor in p.authorized)
  }

  predicate ApprovalBound(c: Candidate)
    requires c.approval.Some?
  {
    var a := c.approval.value;
    a.sha == c.sha && a.baseSha == c.baseSha && a.policyRevision == c.policyRevision
  }

  predicate EvidenceBound(c: Candidate, e: Evidence) {
    e.sha == c.sha && e.baseSha == c.baseSha && e.policyRevision == c.policyRevision
  }

  function Revoked(c: Candidate, state: CandidateState): Candidate {
    c.(approval := None, state := state)
  }

  // ---- What one forge observation does to a candidate whose identity is intact ----

  predicate IsCheckOf(name: string, checks: seq<string>) {
    (|name| >= |"github-check:"| && name[..|"github-check:"|] == "github-check:" && name[|"github-check:"|..] in checks)
    || (!(|name| >= |"github-check:"| && name[..|"github-check:"|] == "github-check:") && name in checks)
  }

  function WithoutChecks(es: seq<Evidence>, checks: seq<string>): seq<Evidence> {
    if es == [] then []
    else if IsCheckOf(es[0].name, checks) then WithoutChecks(es[1..], checks)
    else [es[0]] + WithoutChecks(es[1..], checks)
  }

  predicate CheckPassed(pr: PullRequest, check: string) {
    (exists i | 0 <= i < |pr.checks| :: pr.checks[i].name == check)
    && forall i | 0 <= i < |pr.checks| && pr.checks[i].name == check :: pr.checks[i].verdict == Succeeded
  }

  predicate CheckErrored(pr: PullRequest, check: string) {
    exists i | 0 <= i < |pr.checks| :: pr.checks[i].name == check && pr.checks[i].verdict == Errored
  }

  predicate ChecksPassed(pr: PullRequest, checks: seq<string>) {
    forall i | 0 <= i < |checks| :: CheckPassed(pr, checks[i])
  }

  function ObservedChecks(c: Candidate, pr: PullRequest, checks: seq<string>): seq<Evidence> {
    if checks == [] then []
    else
      var passed := CheckPassed(pr, checks[0]);
      var rest := ObservedChecks(c, pr, checks[1..]);
      if passed || CheckErrored(pr, checks[0])
      then [Evidence(CheckName(checks[0]), passed, c.sha, c.baseSha, c.policyRevision)] + rest
      else rest
  }

  function Observed(c: Candidate, p: Policy, pr: PullRequest): Candidate {
    Recomputed(c.(evidence := WithoutChecks(c.evidence, p.checks) + ObservedChecks(c, pr, p.checks)))
  }

  function Confirmed(c: Candidate): Candidate {
    if c.approval.Some? && !c.approval.value.revocationRequested
    then c.(approval := Some(c.approval.value.(confirmed := true)))
    else c
  }

  /** Confirm a standing approval, or drop it if it was being revoked or lost its evidence. */
  function ConfirmOrDrop(c: Candidate): Candidate {
    var k := Confirmed(c);
    if k.approval.Some? && (k.approval.value.revocationRequested || (k.state != Approved && k.state != Merging))
    then Recomputed(k.(approval := None))
    else k
  }

  predicate QueueAuthorized(c: Candidate, autoMerge: bool) {
    autoMerge && c.approval.Some? && c.approval.value.confirmed && !c.approval.value.revocationRequested
    && (c.state == Approved || c.state == Merging)
  }

  // ---- The invariant ----

  /** Everything recorded about a candidate is about its own sha, base and policy revision. */
  ghost predicate Sound(c: Candidate) {
    && (forall i | 0 <= i < |c.evidence| :: EvidenceBound(c, c.evidence[i]))
    && (c.approval.Some? ==>
          ApprovalBound(c) && AllPassed(c) && (c.state == Approved || c.state == Merging || c.state == CandidateMerged))
    && (c.state == ReadyForApproval || c.state == Approved || c.state == Merging ==> AllPassed(c))
  }

  /** What a merge must rest on, in terms a caller can check against the record. */
  ghost predicate Authorized(c: Candidate) {
    && c.approval.Some?
    && var a := c.approval.value;
    && a.confirmed && !a.revocationRequested
    && a.sha == c.sha && a.baseSha == c.baseSha && a.policyRevision == c.policyRevision
    && forall i | 0 <= i < |c.required| :: PassedFor(c, c.required[i])
  }

  /** The record holds a passing result for `name`, obtained on exactly this candidate. */
  ghost predicate PassedFor(c: Candidate, name: string) {
    exists e | e in c.evidence ::
      e.name == name && e.passed && e.sha == c.sha && e.baseSha == c.baseSha && e.policyRevision == c.policyRevision
  }

  lemma {:induction false} LatestIsRecorded(es: seq<Evidence>, name: string)
    ensures Latest(es, name).Some? ==> Latest(es, name).value in es && Latest(es, name).value.name == name
  {
    if es != [] && es[|es| - 1].name != name {
      LatestIsRecorded(es[..|es| - 1], name);
    }
  }

  lemma SoundApprovalAuthorizes(c: Candidate)
    requires Sound(c) && c.approval.Some? && c.approval.value.confirmed && !c.approval.value.revocationRequested
    ensures Authorized(c)
  {
    forall i | 0 <= i < |c.required|
      ensures PassedFor(c, c.required[i])
    {
      assert Passes(c, c.required[i]);
      LatestIsRecorded(c.evidence, c.required[i]);
      var e := Latest(c.evidence, c.required[i]).value;
      assert EvidenceBound(c, e);
    }
  }

  lemma {:induction false} WithoutIsSubset(es: seq<Evidence>, name: string)
    ensures forall e | e in Without(es, name) :: e in es && e.name != name
    ensures forall e | e in es && e.name != name :: e in Without(es, name)
  {
    if es != [] { WithoutIsSubset(es[1..], name); }
  }

  lemma {:induction false} WithoutChecksIsSubset(es: seq<Evidence>, checks: seq<string>)
    ensures forall e | e in WithoutChecks(es, checks) :: e in es
  {
    if es != [] { WithoutChecksIsSubset(es[1..], checks); }
  }

  lemma {:induction false} ObservedChecksBound(c: Candidate, pr: PullRequest, checks: seq<string>)
    ensures forall e | e in ObservedChecks(c, pr, checks) :: EvidenceBound(c, e)
  {
    if checks != [] { ObservedChecksBound(c, pr, checks[1..]); }
  }

  lemma MakeCandidateSound(p: Policy, sha: Sha, baseSha: Sha, revision: nat)
    ensures Sound(MakeCandidate(p, sha, baseSha, revision))
  {
  }

  /** Recording a result keeps soundness whenever no approval is standing, which the caller checks. */
  lemma UpsertSound(c: Candidate, e: Evidence)
    requires Sound(c) && EvidenceBound(c, e) && c.approval.None?
    ensures Sound(UpsertEvidence(c, e)) && Latest(UpsertEvidence(c, e).evidence, e.name) == Some(e)
  {
    WithoutIsSubset(c.evidence, e.name);
    var u := UpsertEvidence(c, e);
    assert u.evidence[|u.evidence| - 1] == e;
    forall i | 0 <= i < |u.evidence| ensures EvidenceBound(u, u.evidence[i]) {
      assert u.evidence[i] in Without(c.evidence, e.name) || u.evidence[i] == e;
    }
  }

  lemma ApproveSound(c: Candidate, p: Policy, actor: Actor)
    requires Sound(c) && (c.state == ReadyForApproval || c.state == Approved || c.state == Merging)
    ensures Sound(Approve(c, p, actor)) && Approve(c, p, actor).approval.Some?
  {
    var d := Approve(c, p, actor);
    assert d.evidence == c.evidence && d.required == c.required;
    assert AllPassed(c);
    forall i | 0 <= i < |d.required| ensures Passes(d, d.required[i]) { assert Passes(c, c.required[i]); }
  }

  lemma ObservedSound(c: Candidate, p: Policy, pr: PullRequest)
    requires Sound(c)
    ensures Sound(ConfirmOrDrop(Observed(c, p, pr)))
  {
    var o := Observed(c, p, pr);
    WithoutChecksIsSubset(c.evidence, p.checks);
    ObservedChecksBound(c, pr, p.checks);
    forall i | 0 <= i < |o.evidence| ensures EvidenceBound(o, o.evidence[i]) {
      assert o.evidence[i] in WithoutChecks(c.evidence, p.checks) || o.evidence[i] in ObservedChecks(c, pr, p.checks);
    }
    var k := ConfirmOrDrop(o);
    assert k.evidence == o.evidence && k.required == o.required;
    if k.state == ReadyForApproval || k.state == Approved || k.state == Merging {
      assert AllPassed(o);
      forall i | 0 <= i < |k.required| ensures Passes(k, k.required[i]) { assert Passes(o, o.required[i]); }
    }
  }
}
