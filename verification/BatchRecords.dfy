/**
 What every stored batch record satisfies in every run, and why: a batch lock holder's view is the
 stored record, so each transaction acts on the record it decided about. There is one exception. An
 integration that fails after its batch was prepared rewrites the record without the batch lock, and
 a holder may then act once on what it read before. What such a catch block leaves is so bare that
 after this one write, too, all that the record says is its candidate's own, or the record is dead.
 */
module BatchRecords {
  import opened Common
  import opened Records
  import opened CandidateLifecycle
  import opened Coordinate

  // ---- One record ----

  /** Revisions 1..n-1 are in the history, all superseded; the current candidate is revision n. */
  ghost predicate Chained(b: Batch) {
    && (forall i | 0 <= i < |b.history| :: b.history[i].revision == i + 1 && b.history[i].state == Superseded)
    && (if b.candidate.Some? then b.candidate.value.revision == |b.history| + 1 else b.history == [])
  }

  ghost predicate Pristine(c: Candidate) {
    c.evidence == [] && c.approval.None?
  }

  /** A recorded revision names the current candidate and carries a complete, unused successor. */
  ghost predicate IntentFits(b: Batch) {
    b.revision.Some? ==>
      var r := b.revision.value;
      && Finalizable(b)
      && r.revision == b.candidate.value.revision + 1
      && r.next.candidate.Some? && r.next.candidate.value.sha == r.candidateSha
      && r.next.candidate.value.revision == r.revision
      && Pristine(r.next.candidate.value) && Sound(r.next.candidate.value)
      && r.next.status == b.status && r.next.taskIds == b.taskIds && r.next.pullRequest == b.pullRequest
      && r.next.changeRequest.None?
  }

  ghost predicate SoundCandidate(b: Batch) {
    b.candidate.Some? ==> Sound(b.candidate.value)
  }

  /** A failed batch whose candidate a stale approver moved to merging. No operation can use it: it has
      no approval, no pull request, no branch and no intent. */
  ghost predicate Dead(b: Batch) {
    && b.status == BatchFailed && b.pullRequest.None? && b.branchName.None? && b.revision.None? && b.history == []
    && b.candidate.Some? && b.candidate.value.approval.None? && b.candidate.value.state == Merging
  }

  ghost predicate RecordOk(b: Batch) {
    && (SoundCandidate(b) || Dead(b))
    && Chained(b)
    && IntentFits(b)
    && (b.status == Running || b.status == Verified ==> b.pullRequest.None? && b.revision.None?)
    && (b.status == Verified ==> b.candidate.None?)
    && (b.status == Running && b.branchName.None? ==> b.candidate.None?)
    && ChangesFit(b)
  }

  predicate ChangesFit(b: Batch) {
    b.changeRequest.Some? ==> b.status == BatchPublished || b.status == BatchFailed
  }

  /** A record as assembly makes it: nothing verified, approved or revised yet. */
  ghost predicate Unused(b: Batch) {
    SoundCandidate(b) && (b.candidate.Some? ==> b.candidate.value.approval.None?) && b.history == []
    && b.revision.None? && b.changeRequest.None? && b.pullRequest.None?
  }

  /** What the catch block of an integration leaves. */
  ghost predicate Caught(b: Batch) {
    Unused(b) && b.status == BatchFailed && b.branchName.None?
  }

  // ---- All records ----

  /** A view that its holder may still act on. */
  predicate Usable(view: Batch) {
    view.revision.None? && view.status != Running && view.status != Verified
  }

  /** A view is the stored record, or too old for its holder to act on. */
  ghost predicate Current(view: Batch, stored: Batch) {
    view == stored || !Usable(view)
  }

  /** Or else a catch block came in between. */
  ghost predicate Fresh(view: Batch, stored: Batch) {
    Current(view, stored) || Caught(stored)
  }

  /** A revising process holds the batch lock, and its view is current. */
  ghost predicate RevisingOk(s: State) {
    s.integration.Revising? ==>
      var id := s.integration.id;
      id in s.views && (id in s.batches ==> s.views[id] == s.batches[id])
  }

  ghost predicate IntegrationOk(s: State) {
    s.integration.Building? ==>
      var id, mem := s.integration.id, s.integration.mem;
      && RecordOk(mem) && Unused(mem) && Distinct(mem.taskIds)
      && (s.integration.dry ==> mem.branchName.None?)
      && (mem.status == Running || mem.status == Verified || mem.status == Prepared)
      && (id in s.batches ==> s.batches[id].revision.None?)
      && (mem.status == Running ==>
            id in s.batches && s.batches[id].status == Running && s.batches[id].taskIds == mem.taskIds)
      && (mem.status == Verified ==> id in s.batches && s.batches[id].status == Verified)
  }

  ghost predicate StoredOk(s: State) {
    forall id | id in s.batches :: RecordOk(s.batches[id]) && (s.batches[id].status == Running ==> s.batches[id].candidate.None?)
  }

  ghost predicate ViewsOk(s: State) {
    forall id | id in s.views :: RecordOk(s.views[id]) && (id in s.batches ==> Fresh(s.views[id], s.batches[id]))
  }

  ghost predicate RecordsOk(s: State) {
    StoredOk(s) && ViewsOk(s) && IntegrationOk(s) && RevisingOk(s)
  }

  /** Every view that can be acted on is the stored record, without exception. */
  ghost predicate ViewsCurrent(s: State) {
    forall id | id in s.views && id in s.batches :: Current(s.views[id], s.batches[id])
  }

  // ---- Writes under a batch lock ----

  /** A view its holder acts on is the stored record, unless a catch block has just replaced that. */
  lemma ViewIsStored(s: State, id: BatchId)
    requires RecordsOk(s) && Held(s, id) && Usable(s.views[id])
    ensures s.views[id] == s.batches[id] || Caught(s.batches[id])
  {
    assert Fresh(s.views[id], s.batches[id]);
  }

  /** Assembled, under no revision, and with a candidate whose evidence and approval are its own. */
  ghost predicate Actable(s: State, id: BatchId) {
    Held(s, id) && Assembled(s.batches[id]) && s.batches[id].revision.None? && SoundCandidate(s.batches[id])
  }

  /** A holder that believes its batch is not a dead one acts on such a record, stale or not. */
  lemma UsableIsActable(s: State, id: BatchId)
    requires RecordsOk(s) && Held(s, id) && Usable(s.views[id])
    requires s.views[id].status != BatchFailed || s.views[id].pullRequest.Some?
    ensures Actable(s, id) && (s.views[id] == s.batches[id] || Caught(s.batches[id]))
  {
    ViewIsStored(s, id);
  }

  /** A lock holder's write: one good record replaces another that is not being assembled. */
  ghost predicate LockedWrite(s: State, t: State, id: BatchId, b: Batch) {
    && id in s.views && id in s.batches
    && t.batches == s.batches[id := b] && t.views == s.views[id := b] && t.integration == s.integration
    && t.serialized == s.serialized && t.now == s.now
    && RecordOk(b) && b.taskIds == s.batches[id].taskIds
    && (b == s.batches[id] || s.batches[id].revision.None?)
    && (b.revision.Some? && b != s.batches[id] ==> s.integration.Revising? && s.integration.id == id)
    && (b == s.batches[id] || (s.batches[id].status != Running && s.batches[id].status != Verified))
    && (b != s.batches[id] ==> b.status != Running && b.status != Verified)
  }

  lemma LockedWriteKeeps(s: State, t: State, id: BatchId, b: Batch)
    requires RecordsOk(s) && LockedWrite(s, t, id, b)
    ensures RecordsOk(t)
  {
    forall k | k in t.batches
      ensures RecordOk(t.batches[k]) && (t.batches[k].status == Running ==> t.batches[k].candidate.None?)
    {
      if k != id { assert t.batches[k] == s.batches[k]; }
    }
    forall k | k in t.views ensures RecordOk(t.views[k]) && (k in t.batches ==> Fresh(t.views[k], t.batches[k])) {
      if k != id { assert t.views[k] == s.views[k]; }
    }
    if s.integration.Building? && s.integration.id == id && b != s.batches[id] {
      assert s.integration.mem.status != Running;
    }
  }

  ghost predicate Wrote(s: State, o: Outcome, id: BatchId) {
    o.Some? ==> id in o.value.batches && LockedWrite(s, o.value, id, o.value.batches[id])
  }

  // ---- Writing back a changed record ----

  ghost predicate Assembled(b: Batch) {
    b.status != Running && b.status != Verified
  }

  lemma RevokedSound(c: Candidate, state: CandidateState)
    requires Sound(c) && state != ReadyForApproval && state != Approved && state != Merging
    ensures Sound(Revoked(c, state))
  {
    var r := Revoked(c, state);
    forall i | 0 <= i < |r.evidence| ensures EvidenceBound(r, r.evidence[i]) { assert EvidenceBound(c, c.evidence[i]); }
  }

  /** Moving between approved and merging, or to merged, needs nothing but a standing approval. */
  lemma RestatedSound(c: Candidate, state: CandidateState)
    requires Sound(c) && (state == Approved || state == Merging || state == CandidateMerged)
    requires c.approval.Some? || c.state == Approved || c.state == Merging || state == CandidateMerged
    ensures Sound(c.(state := state))
  {
    var r := c.(state := state);
    forall i | 0 <= i < |r.evidence| ensures EvidenceBound(r, r.evidence[i]) { assert EvidenceBound(c, c.evidence[i]); }
    if AllPassed(c) {
      forall i | 0 <= i < |r.required| ensures Passes(r, r.required[i]) { assert Passes(c, c.required[i]); }
    }
  }

  lemma SameCandidateOk(b: Batch, c: Batch)
    requires RecordOk(b) && SoundCandidate(b) && c.candidate == b.candidate && c.history == b.history
    requires b.revision.None? && c.revision.None? && Assembled(c)
    requires ChangesFit(c)
    ensures RecordOk(c)
  {
  }

  lemma NewCandidateOk(b: Batch, c: Batch)
    requires RecordOk(b) && c.history == b.history && c.candidate.Some? && Sound(c.candidate.value)
    requires c.candidate.value.revision == |b.history| + 1
    requires b.revision.None? && c.revision.None? && Assembled(c)
    requires ChangesFit(c)
    ensures RecordOk(c)
  {
  }

  /** `t` differs from `s` by this one record, its holder's view, and tasks. */
  ghost predicate Rewrote(s: State, o: Outcome, id: BatchId, b: Batch) {
    o.Some? && o.value.batches == s.batches[id := b] && o.value.views == s.views[id := b]
    && o.value.integration == s.integration && o.value.serialized == s.serialized && o.value.now == s.now
  }

  lemma RewriteIsWrite(s: State, o: Outcome, id: BatchId, b: Batch)
    requires Held(s, id) && Rewrote(s, o, id, b) && RecordOk(b) && b.taskIds == s.batches[id].taskIds
    requires b.revision.None? && s.batches[id].revision.None? && Assembled(b) && Assembled(s.batches[id])
    ensures Wrote(s, o, id)
  {
  }

  // ---- The writes, one by one ----

  lemma PublishUnboundWrites(s: State, id: BatchId)
    requires RecordsOk(s)
    ensures Wrote(s, PublishUnbound(s, id), id)
  {
    var o := PublishUnbound(s, id);
    if o.Some? && o.value.batches[id] != s.batches[id] {
      UsableIsActable(s, id);
      SameCandidateOk(s.batches[id], o.value.batches[id]);
      RewriteIsWrite(s, o, id, o.value.batches[id]);
    }
  }

  /** Transactions that leave the candidate, its history and its intents alone. */
  lemma PlainWrite(s: State, o: Outcome, id: BatchId, b: Batch)
    requires RecordsOk(s) && Actable(s, id)
    requires Rewrote(s, o, id, b) && b.taskIds == s.batches[id].taskIds
    requires b.candidate == s.batches[id].candidate && b.history == s.batches[id].history && b.revision == s.batches[id].revision
    requires Assembled(b) && ChangesFit(b)
    ensures Wrote(s, o, id)
  {
    SameCandidateOk(s.batches[id], b);
    RewriteIsWrite(s, o, id, b);
  }

  /** Transactions that replace the candidate by a sound one of the same revision. */
  lemma CandidateWrite(s: State, o: Outcome, id: BatchId, b: Batch)
    requires RecordsOk(s) && Held(s, id) && Assembled(s.batches[id]) && s.batches[id].revision.None?
    requires Rewrote(s, o, id, b) && b.taskIds == s.batches[id].taskIds
    requires b.candidate.Some? && Sound(b.candidate.value) && b.candidate.value.revision == |s.batches[id].history| + 1
    requires b.history == s.batches[id].history && b.revision.None?
    requires Assembled(b) && ChangesFit(b)
    ensures Wrote(s, o, id)
  {
    NewCandidateOk(s.batches[id], b);
    RewriteIsWrite(s, o, id, b);
  }

  lemma PublishFailedWrites(s: State, id: BatchId, stale: bool)
    requires RecordsOk(s)
    ensures Wrote(s, PublishFailed(s, id, stale), id)
  {
    var o := PublishFailed(s, id, stale);
    if o.Some? {
      UsableIsActable(s, id);
      PlainWrite(s, o, id, o.value.batches[id]);
    }
  }

  lemma PublishWrites(s: State, id: BatchId, url: Option<nat>)
    requires RecordsOk(s)
    ensures Wrote(s, PublishBatch(s, id, url), id)
  {
    var o := PublishBatch(s, id, url);
    if o.Some? {
      UsableIsActable(s, id);
      PlainWrite(s, o, id, AsPublished(s.batches[id], url));
    }
  }

  lemma PublishQueueAttemptWrites(s: State, id: BatchId, p: Policy)
    requires RecordsOk(s)
    ensures Wrote(s, PublishQueueAttempt(s, id, p), id)
  {
    var o := PublishQueueAttempt(s, id, p);
    if o.Some? {
      UsableIsActable(s, id);
      PlainWrite(s, o, id, o.value.batches[id]);
    }
  }

  /** The candidate is as it was, or an authorized one has moved to merging. */
  ghost predicate OnlyAuthorizedMerges(before: Batch, after: Batch) {
    after.candidate != before.candidate ==>
      before.candidate.Some? && Authorized(before.candidate.value)
      && after.candidate == Some(before.candidate.value.(state := Merging))
  }

  lemma PublishQueueOutcomeWrites(s: State, id: BatchId, p: Policy, enabled: bool)
    requires RecordsOk(s)
    ensures var o := PublishQueueOutcome(s, id, p, enabled);
            Wrote(s, o, id) && (o.Some? ==> OnlyAuthorizedMerges(s.batches[id], o.value.batches[id]))
  {
    var o := PublishQueueOutcome(s, id, p, enabled);
    if o.Some? {
      UsableIsActable(s, id);
      var b := s.batches[id];
      if enabled && b.candidate.Some? && b.candidate.value.approval.Some? {
        assert s.views[id] == b;
        SoundApprovalAuthorizes(b.candidate.value);
        RestatedSound(b.candidate.value, Merging);
        CandidateWrite(s, o, id, o.value.batches[id]);
      } else {
        PlainWrite(s, o, id, o.value.batches[id]);
      }
    }
  }

  lemma ApproveUnboundWrites(s: State, id: BatchId)
    requires RecordsOk(s)
    ensures Wrote(s, ApproveUnbound(s, id), id)
  {
    var o := ApproveUnbound(s, id);
    if o.Some? {
      UsableIsActable(s, id);
      PlainWrite(s, o, id, o.value.batches[id]);
    }
  }

  lemma ApproveQueueAttemptWrites(s: State, id: BatchId, binding: Binding)
    requires RecordsOk(s)
    ensures Wrote(s, ApproveQueueAttempt(s, id, binding), id)
  {
    var o := ApproveQueueAttempt(s, id, binding);
    if o.Some? {
      UsableIsActable(s, id);
      PlainWrite(s, o, id, o.value.batches[id]);
    }
  }

  /** The one write that leaves an unsound candidate, on a record that is dead from then on. */
  lemma DeadWrite(s: State, o: Outcome, id: BatchId, b: Batch)
    requires RecordsOk(s) && Held(s, id) && Caught(s.batches[id]) && Rewrote(s, o, id, b)
    requires s.batches[id].candidate.Some?
    requires b == s.batches[id].(autoMergeEnabled := b.autoMergeEnabled, autoMergePending := b.autoMergePending,
                                 candidate := Some(s.batches[id].candidate.value.(state := Merging)))
    ensures Wrote(s, o, id)
  {
    assert Dead(b) && Chained(b);
    RewriteIsWrite(s, o, id, b);
  }

  lemma ApproveQueueOutcomeWrites(s: State, id: BatchId, binding: Binding, enabled: bool)
    requires RecordsOk(s)
    ensures Wrote(s, ApproveQueueOutcome(s, id, binding, enabled), id)
  {
    var o := ApproveQueueOutcome(s, id, binding, enabled);
    if o.Some? {
      UsableIsActable(s, id);
      if enabled && s.views[id] == s.batches[id] {
        RestatedSound(s.batches[id].candidate.value, Merging);
        CandidateWrite(s, o, id, o.value.batches[id]);
      } else if enabled {
        DeadWrite(s, o, id, o.value.batches[id]);
      } else {
        PlainWrite(s, o, id, o.value.batches[id]);
      }
    }
  }

  lemma VerificationWrites(s: State, id: BatchId, name: string, passed: bool, binding: Binding, p: Policy, pr: PullRequest)
    requires RecordsOk(s)
    ensures Wrote(s, RecordVerification(s, id, name, passed, binding, p, pr), id)
  {
    var o := RecordVerification(s, id, name, passed, binding, p, pr);
    if o.Some? {
      UsableIsActable(s, id);
      var c := s.batches[id].candidate.value;
      UpsertSound(c, Evidence(name, passed, c.sha, c.baseSha, c.policyRevision));
      CandidateWrite(s, o, id, o.value.batches[id]);
    }
  }

  lemma ApprovalWrites(s: State, id: BatchId, binding: Binding, actor: Actor, p: Policy, pr: PullRequest)
    requires RecordsOk(s)
    ensures Wrote(s, ApproveBatch(s, id, binding, actor, p, pr), id)
  {
    var o := ApproveBatch(s, id, binding, actor, p, pr);
    if o.Some? {
      UsableIsActable(s, id);
      ApproveSound(s.batches[id].candidate.value, p, actor);
      CandidateWrite(s, o, id, o.value.batches[id]);
    }
  }

  lemma RequestChangesWrites(s: State, id: BatchId, binding: Binding, pr: PullRequest)
    requires RecordsOk(s)
    ensures Wrote(s, RequestChanges(s, id, binding, pr), id)
  {
    var o := RequestChanges(s, id, binding, pr);
    if o.Some? {
      UsableIsActable(s, id);
      PlainWrite(s, o, id, o.value.batches[id]);
    }
  }

  /** A terminal record: whatever candidate it had, its approval is gone. */
  lemma RetiredWrite(s: State, o: Outcome, id: BatchId, b: Batch, state: CandidateState)
    requires RecordsOk(s) && Actable(s, id)
    requires state != ReadyForApproval && state != Approved && state != Merging
    requires Rewrote(s, o, id, b) && b.taskIds == s.batches[id].taskIds
    requires b.candidate == (if s.batches[id].candidate.Some? then Some(Revoked(s.batches[id].candidate.value, state)) else None)
    requires b.history == s.batches[id].history && b.revision.None? && Assembled(b) && b.changeRequest.None?
    ensures Wrote(s, o, id)
  {
    if s.batches[id].candidate.Some? {
      RevokedSound(s.batches[id].candidate.value, state);
      CandidateWrite(s, o, id, b);
    } else {
      SameCandidateOk(s.batches[id], b);
      RewriteIsWrite(s, o, id, b);
    }
  }

  /** No approval is left on this batch. */
  ghost predicate Unapproved(o: Outcome, id: BatchId) {
    o.Some? ==> id in o.value.batches && (o.value.batches[id].candidate.Some? ==> o.value.batches[id].candidate.value.approval.None?)
  }

  lemma CloseWrites(s: State, id: BatchId, changeRequest: bool, revocation: bool, refreshRequired: bool, refreshClose: bool)
    requires RecordsOk(s)
    ensures var o := CloseLocked(s, id, changeRequest, revocation, refreshRequired, refreshClose);
            Wrote(s, o, id) && Unapproved(o, id)
  {
    var o := CloseLocked(s, id, changeRequest, revocation, refreshRequired, refreshClose);
    if o.Some? { RetiredWrite(s, o, id, AsClosed(s.batches[id], Abandoned, s.now), Abandoned); }
  }

  lemma CompleteChangesWrites(s: State, id: BatchId, pr: PullRequest)
    requires RecordsOk(s)
    ensures Wrote(s, CompleteChangeRequest(s, id, pr), id) && Unapproved(CompleteChangeRequest(s, id, pr), id)
  {
    var o := CompleteChangeRequest(s, id, pr);
    if o.Some? {
      UsableIsActable(s, id);
      if pr.state == PullRequestClosed {
        CloseWrites(s, id, true, true, true, true);
      } else if !OpenAtCandidate(pr, s.views[id].candidate.value) {
        RetiredWrite(s, o, id, AsViolated(s.batches[id], s.now), Blocked);
      } else {
        RetiredWrite(s, o, id, ChangesRecorded(s.batches[id]), ChangesRequested);
      }
    }
  }

  lemma MergeWrites(s: State, id: BatchId, p: Policy, at: Instant)
    requires RecordsOk(s)
    ensures Wrote(s, MarkMergedLocked(s, id, p, at), id)
  {
    var o := MarkMergedLocked(s, id, p, at);
    if o.Some? {
      var b := AsMerged(s.batches[id], at);
      if b.candidate.Some? {
        RestatedSound(s.batches[id].candidate.value, CandidateMerged);
        CandidateWrite(s, o, id, b);
      } else {
        SameCandidateOk(s.batches[id], b);
        RewriteIsWrite(s, o, id, b);
      }
    }
  }

  lemma StartRefreshWrites(s: State, id: BatchId, target: Sha, nonce: nat)
    requires RecordsOk(s)
    ensures Wrote(s, StartRefresh(s, id, target, nonce), id)
  {
    var o := StartRefresh(s, id, target, nonce);
    if o.Some? {
      UsableIsActable(s, id);
      PlainWrite(s, o, id, o.value.batches[id]);
    }
  }

  lemma QuietRefreshWrites(s: State, id: BatchId)
    requires RecordsOk(s)
    ensures Wrote(s, QuietRefresh(s, id), id)
  {
    var o := QuietRefresh(s, id);
    if o.Some? {
      UsableIsActable(s, id);
      var b := s.batches[id];
      if b.candidate.Some? && b.candidate.value.state == Merging {
        RestatedSound(b.candidate.value, Approved);
        CandidateWrite(s, o, id, o.value.batches[id]);
      } else {
        PlainWrite(s, o, id, o.value.batches[id]);
      }
    }
  }

  lemma FinishRefreshWrites(s: State, id: BatchId)
    requires RecordsOk(s)
    ensures Wrote(s, FinishRefresh(s, id), id)
  {
    var o := FinishRefresh(s, id);
    if o.Some? {
      UsableIsActable(s, id);
      RetiredWrite(s, o, id, AsClosed(s.batches[id], Superseded, s.now).(branchName := None), Superseded);
    }
  }

  lemma ReopenWrites(s: State, t: TaskId, id: BatchId, paths: Option<seq<string>>, lease: Lease, p: Policy)
    requires RecordsOk(s)
    ensures Wrote(s, ReopenTask(s, t, id, paths, lease, p), id) && Unapproved(ReopenTask(s, t, id, paths, lease, p), id)
  {
    var o := ReopenTask(s, t, id, paths, lease, p);
    if o.Some? {
      RevokedSound(s.batches[id].candidate.value, ChangesRequested);
      CandidateWrite(s, o, id, o.value.batches[id]);
    }
  }

  /** The record a revision intent is stored in, when it was rebuilt from the current record. */
  lemma IntentRecorded(b: Batch, c: Batch, token: nat, head: Sha, base: Sha, revised: Receipt, p: Policy, t: TaskId, now: Instant)
    requires RecordOk(b) && b.revision.None? && Assembled(b) && b.candidate.Some? && b.candidate.value.state == ChangesRequested
    requires var revision := b.candidate.value.revision + 1;
             c == b.(revision := Some(RevisionIntent(revision, t, b.candidate.value.sha, head,
                                                     Rebuilt(b, p, head, base, revision, now), revised)))
    ensures RecordOk(c)
  {
    MakeCandidateSound(p, head, base, b.candidate.value.revision + 1);
    assert IntentFits(c);
  }

  lemma RecordRevisionWrites(s: State, token: nat, head: Sha, base: Sha, receipt: Receipt, p: Policy)
    requires RecordsOk(s) && s.integration.Revising?
    ensures Wrote(s, RecordRevision(s, token, head, base, receipt, p), s.integration.id)
  {
    var id := s.integration.id;
    var o := RecordRevision(s, token, head, base, receipt, p);
    if o.Some? {
      var b := s.batches[id];
      assert s.views[id] == b;
      IntentRecorded(b, o.value.batches[id], token, head, base, receipt, p, s.integration.task, s.now);
    }
  }

  /** What a confirmed or dropped approval becomes when the queue's state was observed too. */
  lemma QueueObservedSound(k: Candidate, autoMerge: bool)
    requires Sound(k) && QueueAuthorized(k, autoMerge)
    ensures Sound(k.(state := Merging)) && Sound(k.(state := Approved))
  {
    RestatedSound(k, Merging);
    RestatedSound(k, Approved);
  }

  lemma RevokedReconciliationsSound(c: Candidate)
    requires Sound(c)
    ensures Sound(Revoked(c, Blocked)) && Sound(Revoked(c, ChangesRequested))
  {
    RevokedSound(c, Blocked);
    RevokedSound(c, ChangesRequested);
  }

  lemma ReconciledSound(b: Batch, cfg: Config, pr: PullRequest)
    requires b.candidate.Some? && Sound(b.candidate.value)
    ensures Reconciled(b, cfg, pr).candidate.Some? && Sound(Reconciled(b, cfg, pr).candidate.value)
    ensures Reconciled(b, cfg, pr).candidate.value.revision == b.candidate.value.revision
  {
    RevokedReconciliationsSound(b.candidate.value);
    ChecksObservedSound(b, cfg, pr);
  }

  lemma ChecksObservedSound(b: Batch, cfg: Config, pr: PullRequest)
    requires b.candidate.Some? && Sound(b.candidate.value)
    ensures ChecksObserved(b, cfg, pr).candidate.Some? && Sound(ChecksObserved(b, cfg, pr).candidate.value)
    ensures ChecksObserved(b, cfg, pr).candidate.value.revision == b.candidate.value.revision
  {
    var c := b.candidate.value;
    ObservedSound(c, cfg.policy, pr);
    var k := ConfirmOrDrop(Observed(c, cfg.policy, pr));
    if QueueAuthorized(k, cfg.autoMerge) { QueueObservedSound(k, cfg.autoMerge); }
  }

  /** The decisions that touch neither the candidate nor its history. */
  predicate Plain(action: SyncAction) {
    action == SuspectQueue || action == MarkStale || action == RecordQueue
  }

  lemma PlainSyncWrites(s: State, id: BatchId, cfg: Config, pr: PullRequest, action: SyncAction)
    requires RecordsOk(s) && Actable(s, id) && Plain(action)
    ensures Wrote(s, CommitSync(s, id, cfg, pr, action), id)
  {
    var o := CommitSync(s, id, cfg, pr, action);
    if o.Some? { PlainWrite(s, o, id, o.value.batches[id]); }
  }

  lemma StopQueueWrites(s: State, id: BatchId, cfg: Config, pr: PullRequest)
    requires RecordsOk(s) && Actable(s, id)
    ensures Wrote(s, CommitSync(s, id, cfg, pr, StopQueue), id)
  {
    var b := s.batches[id];
    var o := CommitSync(s, id, cfg, pr, StopQueue);
    if b.candidate.Some? && b.candidate.value.approval.Some? && b.candidate.value.state == Merging {
      RestatedSound(b.candidate.value, Approved);
      CandidateWrite(s, o, id, QueueStopped(b));
    } else {
      PlainWrite(s, o, id, QueueStopped(b));
    }
  }

  lemma StopUnauthorizedWrites(s: State, id: BatchId, cfg: Config, pr: PullRequest)
    requires RecordsOk(s) && Actable(s, id)
    ensures Wrote(s, CommitSync(s, id, cfg, pr, StopUnauthorized), id)
  {
    var b := s.batches[id];
    var o := CommitSync(s, id, cfg, pr, StopUnauthorized);
    if o.Some? {
      RecomputedSound(b.candidate.value);
      CandidateWrite(s, o, id, UnauthorizedQueueStopped(b));
    }
  }

  lemma StartRevocationWrites(s: State, id: BatchId, cfg: Config, pr: PullRequest)
    requires RecordsOk(s) && Actable(s, id)
    ensures Wrote(s, CommitSync(s, id, cfg, pr, StartRevocation), id)
  {
    var b := s.batches[id];
    var o := CommitSync(s, id, cfg, pr, StartRevocation);
    if o.Some? {
      RevocationSound(b);
      CandidateWrite(s, o, id, RevocationStarted(b));
    }
  }

  predicate SameFrame(b: Batch, r: Batch) {
    r.taskIds == b.taskIds && r.status == b.status && r.history == b.history && r.revision == b.revision
    && r.changeRequest == b.changeRequest
  }

  lemma ChecksObservedShape(b: Batch, cfg: Config, pr: PullRequest)
    requires b.candidate.Some?
    ensures SameFrame(b, ChecksObserved(b, cfg, pr))
  {
  }

  lemma ReconciledShape(b: Batch, cfg: Config, pr: PullRequest)
    requires b.candidate.Some?
    ensures SameFrame(b, Reconciled(b, cfg, pr))
  {
    ChecksObservedShape(b, cfg, pr);
  }

  lemma ReconcileWrites(s: State, id: BatchId, cfg: Config, pr: PullRequest)
    requires RecordsOk(s) && Actable(s, id)
    ensures Wrote(s, CommitSync(s, id, cfg, pr, Reconcile), id)
  {
    var b := s.batches[id];
    var o := CommitSync(s, id, cfg, pr, Reconcile);
    if o.Some? {
      ReconciledSound(b, cfg, pr);
      ReconciledShape(b, cfg, pr);
      CandidateWrite(s, o, id, Reconciled(b, cfg, pr));
    }
  }

  lemma AdoptWrites(s: State, id: BatchId, cfg: Config, pr: PullRequest)
    requires RecordsOk(s) && Actable(s, id)
    requires s.batches[id].history == []
    ensures Wrote(s, CommitSync(s, id, cfg, pr, AdoptCandidate), id)
  {
    var b := s.batches[id];
    var o := CommitSync(s, id, cfg, pr, AdoptCandidate);
    if o.Some? {
      MakeCandidateSound(cfg.policy, b.headSha.value, b.baseSha, 1);
      CandidateWrite(s, o, id, o.value.batches[id]);
    }
  }

  lemma FailBatchWrites(s: State, id: BatchId, cfg: Config, pr: PullRequest)
    requires RecordsOk(s) && Actable(s, id)
    ensures Wrote(s, CommitSync(s, id, cfg, pr, FailBatch), id)
  {
    var o := CommitSync(s, id, cfg, pr, FailBatch);
    if o.Some? { RetiredWrite(s, o, id, o.value.batches[id], Blocked); }
  }

  lemma CommitSyncWrites(s: State, id: BatchId, cfg: Config, pr: PullRequest, action: SyncAction)
    requires RecordsOk(s) && Actable(s, id)
    requires action == AdoptCandidate ==> s.batches[id].history == []
    ensures Wrote(s, CommitSync(s, id, cfg, pr, action), id)
  {
    match action
    case NoChange =>
    case FailBatch => FailBatchWrites(s, id, cfg, pr);
    case CloseRejected => CloseWrites(s, id, false, true, true, false);
    case Complete => MergeWrites(s, id, cfg.policy, s.now);
    case StopQueue => StopQueueWrites(s, id, cfg, pr);
    case AdoptCandidate => AdoptWrites(s, id, cfg, pr);
    case StopUnauthorized => StopUnauthorizedWrites(s, id, cfg, pr);
    case StartRevocation => StartRevocationWrites(s, id, cfg, pr);
    case Reconcile => ReconcileWrites(s, id, cfg, pr);
    case _ => PlainSyncWrites(s, id, cfg, pr, action);
  }

  lemma RecomputedSound(c: Candidate)
    requires Sound(c)
    ensures Sound(Recomputed(c))
  {
    var r := Recomputed(c);
    forall i | 0 <= i < |r.evidence| ensures EvidenceBound(r, r.evidence[i]) { assert EvidenceBound(c, c.evidence[i]); }
    if AllPassed(c) {
      forall i | 0 <= i < |r.required| ensures Passes(r, r.required[i]) { assert Passes(c, c.required[i]); }
    }
  }

  lemma RevocationSound(b: Batch)
    requires b.candidate.Some? && b.candidate.value.approval.Some? && Sound(b.candidate.value)
    ensures Sound(RevocationStarted(b).candidate.value)
  {
    var c, r := b.candidate.value, RevocationStarted(b).candidate.value;
    forall i | 0 <= i < |r.evidence| ensures EvidenceBound(r, r.evidence[i]) { assert EvidenceBound(c, c.evidence[i]); }
    forall i | 0 <= i < |r.required| ensures Passes(r, r.required[i]) { assert Passes(c, c.required[i]); }
  }

  lemma SyncedIsAssembled(b: Batch)
    requires RecordOk(b) && SyncGuard(b)
    ensures Assembled(b)
  {
  }

  lemma SyncWrites(s: State, id: BatchId, cfg: Config, pr: PullRequest, proven: bool, disabled: bool, action: SyncAction)
    requires RecordsOk(s)
    ensures Wrote(s, SyncBatch(s, id, cfg, pr, proven, disabled, action), id)
  {
    if SyncBatch(s, id, cfg, pr, proven, disabled, action).Some? {
      SyncedIsAssembled(s.views[id]);
      UsableIsActable(s, id);
      CommitSyncWrites(s, id, cfg, pr, action);
    }
  }

  lemma SyncLandedWrites(s: State, id: BatchId, p: Policy)
    requires RecordsOk(s)
    ensures Wrote(s, SyncLanded(s, id, p), id)
  {
    MergeWrites(s, id, p, s.now);
  }

  lemma CloseBatchWrites(s: State, id: BatchId)
    requires RecordsOk(s)
    ensures Wrote(s, CloseBatch(s, id), id)
  {
    CloseWrites(s, id, false, false, false, false);
  }

  lemma RejectRefreshWrites(s: State, id: BatchId)
    requires RecordsOk(s)
    ensures Wrote(s, RejectRefresh(s, id), id)
  {
    CloseWrites(s, id, false, true, true, true);
  }

  // ---- Steps outside the batch locks ----

  ghost predicate Kept(o: Outcome) {
    o.Some? ==> RecordsOk(o.value)
  }

  ghost predicate OnlyTasks(s: State, o: Outcome) {
    o.Some? ==> o.value.batches == s.batches && o.value.views == s.views && o.value.integration == s.integration
                && o.value.serialized == s.serialized
  }

  lemma OnlyTasksKeeps(s: State, o: Outcome)
    requires RecordsOk(s) && OnlyTasks(s, o)
    ensures Kept(o)
  {
  }

  /** A write under the integration lock to a record whose views are already too old to act on, or of
      a record that a catch block leaves. */
  lemma UnseenWriteKeeps(s: State, t: State, id: BatchId, b: Batch)
    requires StoredOk(s) && ViewsOk(s) && t.batches == s.batches[id := b] && t.views == s.views
    requires RecordOk(b) && (b.status == Running ==> b.candidate.None?)
    requires id in s.views ==> !Usable(s.views[id]) || Caught(b)
    ensures StoredOk(t) && ViewsOk(t)
  {
    forall k | k in t.batches
      ensures RecordOk(t.batches[k]) && (t.batches[k].status == Running ==> t.batches[k].candidate.None?)
    {
      if k != id { assert t.batches[k] == s.batches[k]; }
    }
    forall k | k in t.views ensures RecordOk(t.views[k]) && (k in t.batches ==> Fresh(t.views[k], t.batches[k])) {
      if k != id { assert k in t.batches ==> t.batches[k] == s.batches[k]; }
    }
  }

  /** Nobody acts on a view of a record that is still being assembled. */
  lemma UnassembledUnused(s: State, id: BatchId)
    requires RecordsOk(s) && id in s.batches && (s.batches[id].status == Running || s.batches[id].status == Verified)
    ensures id in s.views ==> !Usable(s.views[id])
  {
    if id in s.views { assert Fresh(s.views[id], s.batches[id]); }
  }

  lemma RecoverBatchKeeps(s: State, id: BatchId)
    requires RecordsOk(s) && s.integration.Recovering?
    ensures RecordsOk(RecoverBatch(s, id)) && RecoverBatch(s, id).integration.Recovering?
  {
    if id in s.batches && s.batches[id].status == Running {
      UnassembledUnused(s, id);
      UnseenWriteKeeps(s, RecoverBatch(s, id), id, s.batches[id].(status := BatchFailed, finishedAt := Some(s.now)));
    }
  }

  lemma {:induction false} RecoverEachKeeps(s: State, ids: seq<BatchId>)
    requires RecordsOk(s) && s.integration.Recovering?
    ensures RecordsOk(RecoverEach(s, ids))
    decreases |ids|
  {
    if ids != [] {
      RecoverBatchKeeps(s, ids[0]);
      RecoverEachKeeps(RecoverBatch(s, ids[0]), ids[1..]);
    }
  }

  lemma StartKeeps(s: State, id: BatchId, plan: seq<Task>, branch: nat, sha: Sha, bound: bool, local: bool)
    requires RecordsOk(s)
    ensures Kept(StartBatch(s, id, plan, branch, sha, bound, local))
  {
    var o := StartBatch(s, id, plan, branch, sha, bound, local);
    if o.Some? { UnseenWriteKeeps(s, o.value, id, o.value.batches[id]); }
  }

  lemma RecordBranchKeeps(s: State, branch: nat, sha: Sha, p: Policy)
    requires RecordsOk(s)
    ensures Kept(RecordBranch(s, branch, sha, p))
  {
    var o := RecordBranch(s, branch, sha, p);
    if o.Some? {
      var id := s.integration.id;
      MakeCandidateSound(p, sha, s.integration.mem.baseSha, 1);
      UnassembledUnused(s, id);
      UnseenWriteKeeps(s, o.value, id, o.value.batches[id]);
    }
  }

  lemma FinishDryRunKeeps(s: State, sha: Sha)
    requires RecordsOk(s)
    ensures Kept(FinishDryRun(s, sha))
  {
    var o := FinishDryRun(s, sha);
    if o.Some? {
      var id := s.integration.id;
      UnassembledUnused(s, id);
      UnseenWriteKeeps(s, o.value, id, o.value.batches[id]);
    }
  }

  lemma PrepareKeeps(s: State)
    requires RecordsOk(s)
    ensures Kept(PrepareBatch(s))
  {
    var o := PrepareBatch(s);
    if o.Some? {
      var id := s.integration.id;
      UnassembledUnused(s, id);
      UnseenWriteKeeps(s, o.value, id, o.value.batches[id]);
    }
  }

  /** The record the catch block writes. */
  function CatchRecord(s: State): Batch
    requires s.integration.Building?
  {
    s.integration.mem.(status := BatchFailed, finishedAt := Some(s.now), branchName := None)
  }

  lemma FailIntegrationKeeps(s: State, culprit: Option<TaskId>, maxAttempts: nat)
    requires RecordsOk(s)
    ensures Kept(FailIntegration(s, culprit, maxAttempts))
  {
    var o := FailIntegration(s, culprit, maxAttempts);
    if o.Some? { UnseenWriteKeeps(s, o.value, s.integration.id, CatchRecord(s)); }
  }

  lemma TakeBatchKeeps(s: State, id: BatchId)
    requires RecordsOk(s)
    ensures Kept(TakeBatchLock(s, id))
  {
  }

  lemma DropBatchKeeps(s: State, id: BatchId)
    requires RecordsOk(s)
    ensures Kept(DropBatchLock(s, id))
  {
  }

  lemma TickKeeps(s: State, to: Instant)
    requires RecordsOk(s)
    ensures Kept(Tick(s, to))
  {
  }

  lemma BeginRevisionKeeps(s: State, id: BatchId, t: TaskId, token: nat, pr: PullRequest)
    requires RecordsOk(s)
    ensures Kept(BeginRevision(s, id, t, token, pr))
  {
  }

  lemma FinalizedOk(b: Batch)
    requires RecordOk(b) && Finalizable(b)
    ensures RecordOk(Finalized(b)) && Assembled(Finalized(b)) && Finalized(b).taskIds == b.taskIds
  {
    var f := Finalized(b);
    forall i | 0 <= i < |f.history| ensures f.history[i].revision == i + 1 && f.history[i].state == Superseded {
      if i < |b.history| { assert f.history[i] == b.history[i]; }
    }
  }

  lemma FinishRevisionKeeps(s: State)
    requires RecordsOk(s)
    ensures Kept(FinishRevision(s))
  {
    var o := FinishRevision(s);
    if o.Some? { FinalizedOk(s.batches[s.integration.id]); }
  }

  lemma ForgottenOk(b: Batch)
    requires RecordOk(b)
    ensures RecordOk(b.(revision := None))
  {
  }

  /** Recovery replaces only a record with a pending intent, whose views nobody acts on. */
  lemma RecoverRevisionKeeps(s: State, id: BatchId, branchHead: Sha)
    requires RecordsOk(s)
    ensures Kept(RecoverRevision(s, id, branchHead))
  {
    var o := RecoverRevision(s, id, branchHead);
    if o.Some? {
      var b, t := s.batches[id], o.value;
      ForgottenOk(b);
      if Finalizable(b) { FinalizedOk(b); }
      assert t.batches == s.batches[id := t.batches[id]] && t.views == s.views;
      forall k | k in t.views ensures RecordOk(t.views[k]) && (k in t.batches ==> Fresh(t.views[k], t.batches[k])) {
        if k == id { assert Fresh(s.views[k], b); }
      }
    }
  }

  lemma PruneKeeps(s: State, cutoff: Instant)
    requires RecordsOk(s)
    ensures Kept(Prune(s, cutoff))
  {
  }

  // ---- Every step, every run ----

  /** Steps of the process that holds, takes or loses the integration lock. */
  predicate IntegrationStep(step: Step) {
    AssemblyStep(step) || step.STakeIntegration? || step.SDropIntegration? || step.SRecoverRunning? || step.SCheckOutstanding?
    || step.SBeginRevision? || step.SFinishRevision? || step.SRecoverRevision?
  }

  predicate AssemblyStep(step: Step) {
    step.SStart? || step.SRecordBranch? || step.SFinishDryRun? || step.SPrepare? || step.SFailIntegration?
  }

  predicate HousekeepingStep(step: Step) {
    step.STakeBatch? || step.SDropBatch? || step.SPrune? || step.STick?
  }

  /** Every other step is one transaction of the holder of one batch lock. */
  function LockedBatch(s: State, step: Step): Option<BatchId> {
    if WorkerStep(step) || IntegrationStep(step) || HousekeepingStep(step) then None
    else if step.SRecordRevision? then (if s.integration.Revising? then Some(s.integration.id) else None)
    else Some(step.id)
  }

  lemma WorkerStepKeeps(s: State, step: Step)
    requires RecordsOk(s) && WorkerStep(step)
    ensures OnlyTasks(s, Apply(s, step)) && Kept(Apply(s, step))
  {
    WorkerWritesTasks(s, step);
    OnlyTasksKeeps(s, Apply(s, step));
  }

  lemma WorkerWritesTasks(s: State, step: Step)
    requires WorkerStep(step)
    ensures OnlyTasks(s, Apply(s, step))
  {
  }

  lemma LockOnlyKeeps(s: State, force: bool, dry: bool)
    requires RecordsOk(s)
    ensures Kept(TakeIntegrationLock(s)) && Kept(DropIntegrationLock(s)) && Kept(CheckOutstanding(s, force, dry))
  {
  }

  lemma RecoverRunningKeeps(s: State, ids: seq<BatchId>)
    requires RecordsOk(s)
    ensures Kept(RecoverRunning(s, ids))
  {
    if s.integration.Recovering? { RecoverEachKeeps(s, ids); }
  }

  lemma AssemblyStepKeeps(s: State, step: Step)
    requires RecordsOk(s) && AssemblyStep(step)
    ensures Kept(Apply(s, step))
  {
    match step
    case SStart(id, plan, branch, sha, bound, local) => StartKeeps(s, id, plan, branch, sha, bound, local);
    case SRecordBranch(branch, sha, policy) => RecordBranchKeeps(s, branch, sha, policy);
    case SFinishDryRun(sha) => FinishDryRunKeeps(s, sha);
    case SPrepare => PrepareKeeps(s);
    case SFailIntegration(culprit, maxAttempts) => FailIntegrationKeeps(s, culprit, maxAttempts);
  }

  lemma IntegrationStepKeeps(s: State, step: Step)
    requires RecordsOk(s) && IntegrationStep(step) && !AssemblyStep(step)
    ensures Kept(Apply(s, step))
  {
    match step
    case STakeIntegration => LockOnlyKeeps(s, false, false);
    case SDropIntegration => LockOnlyKeeps(s, false, false);
    case SCheckOutstanding(force, dry) => LockOnlyKeeps(s, force, dry);
    case SRecoverRunning(ids) => RecoverRunningKeeps(s, ids);
    case SBeginRevision(id, t, token, pr) => BeginRevisionKeeps(s, id, t, token, pr);
    case SFinishRevision => FinishRevisionKeeps(s);
    case SRecoverRevision(id, branchHead) => RecoverRevisionKeeps(s, id, branchHead);
  }

  lemma BatchLockStepKeeps(s: State, step: Step)
    requires RecordsOk(s) && (step.STakeBatch? || step.SDropBatch?)
    ensures Kept(Apply(s, step))
  {
    if step.STakeBatch? { TakeBatchKeeps(s, step.id); } else { DropBatchKeeps(s, step.id); }
  }

  lemma HousekeepingStepKeeps(s: State, step: Step)
    requires RecordsOk(s) && HousekeepingStep(step)
    ensures Kept(Apply(s, step))
  {
    if step.SPrune? { PruneKeeps(s, step.cutoff); }
    else if step.STick? { TickKeeps(s, step.to); }
    else { BatchLockStepKeeps(s, step); }
  }

  predicate PublishStep(step: Step) {
    step.SPublishUnbound? || step.SPublishFailed? || step.SPublish? || step.SPublishQueueAttempt? || step.SPublishQueueOutcome?
  }

  predicate ApprovalStep(step: Step) {
    step.SVerify? || step.SApprove? || step.SApproveUnbound? || step.SApproveQueueAttempt? || step.SApproveQueueOutcome?
    || step.SRequestChanges? || step.SCompleteChanges?
  }

  lemma PublishStepWrites(s: State, step: Step)
    requires RecordsOk(s) && PublishStep(step)
    ensures Wrote(s, Apply(s, step), step.id)
  {
    match step
    case SPublishUnbound(id) => PublishUnboundWrites(s, id);
    case SPublishFailed(id, stale) => PublishFailedWrites(s, id, stale);
    case SPublish(id, url) => PublishWrites(s, id, url);
    case SPublishQueueAttempt(id, policy) => PublishQueueAttemptWrites(s, id, policy);
    case SPublishQueueOutcome(id, policy, enabled) => PublishQueueOutcomeWrites(s, id, policy, enabled);
  }

  lemma EvidenceStepWrites(s: State, step: Step)
    requires RecordsOk(s) && (step.SVerify? || step.SApprove? || step.SApproveUnbound?)
    ensures Wrote(s, Apply(s, step), step.id)
  {
    match step
    case SVerify(id, name, passed, binding, policy, pr) => VerificationWrites(s, id, name, passed, binding, policy, pr);
    case SApprove(id, binding, actor, policy, pr) => ApprovalWrites(s, id, binding, actor, policy, pr);
    case SApproveUnbound(id) => ApproveUnboundWrites(s, id);
  }

  lemma ChangeStepWrites(s: State, step: Step)
    requires RecordsOk(s)
    requires step.SApproveQueueAttempt? || step.SApproveQueueOutcome? || step.SRequestChanges? || step.SCompleteChanges?
    ensures Wrote(s, Apply(s, step), step.id)
  {
    match step
    case SApproveQueueAttempt(id, binding) => ApproveQueueAttemptWrites(s, id, binding);
    case SApproveQueueOutcome(id, binding, enabled) => ApproveQueueOutcomeWrites(s, id, binding, enabled);
    case SRequestChanges(id, binding, pr) => RequestChangesWrites(s, id, binding, pr);
    case SCompleteChanges(id, pr) => CompleteChangesWrites(s, id, pr);
  }

  lemma ApprovalStepWrites(s: State, step: Step)
    requires RecordsOk(s) && ApprovalStep(step)
    ensures Wrote(s, Apply(s, step), step.id)
  {
    if step.SVerify? || step.SApprove? || step.SApproveUnbound? { EvidenceStepWrites(s, step); }
    else { ChangeStepWrites(s, step); }
  }

  lemma ClosingStepWrites(s: State, step: Step)
    requires RecordsOk(s) && LockedBatch(s, step).Some? && !PublishStep(step) && !ApprovalStep(step)
    ensures Wrote(s, Apply(s, step), LockedBatch(s, step).value)
  {
    match step
    case SReopen(t, id, scope, lease, policy) => ReopenWrites(s, t, id, scope, lease, policy);
    case SRecordRevision(token, head, base, receipt, policy) => RecordRevisionWrites(s, token, head, base, receipt, policy);
    case SSync(id, config, pr, proven, disabled, action) => SyncWrites(s, id, config, pr, proven, disabled, action);
    case SSyncLanded(id, policy) => SyncLandedWrites(s, id, policy);
    case SClose(id) => CloseBatchWrites(s, id);
    case SMarkMerged(id, policy, at) => MergeWrites(s, id, policy, at);
    case SStartRefresh(id, target, nonce) => StartRefreshWrites(s, id, target, nonce);
    case SQuietRefresh(id) => QuietRefreshWrites(s, id);
    case SRejectRefresh(id) => RejectRefreshWrites(s, id);
    case SFinishRefresh(id) => FinishRefreshWrites(s, id);
  }

  /** Every transaction under a batch lock replaces one good record by another. */
  lemma LockedStepWrites(s: State, step: Step)
    requires RecordsOk(s) && LockedBatch(s, step).Some?
    ensures Wrote(s, Apply(s, step), LockedBatch(s, step).value)
  {
    if PublishStep(step) { PublishStepWrites(s, step); }
    else if ApprovalStep(step) { ApprovalStepWrites(s, step); }
    else { ClosingStepWrites(s, step); }
  }

  /** Every step keeps every record well formed. */
  lemma StepKeepsRecords(s: State, step: Step)
    requires RecordsOk(s)
    ensures Kept(Apply(s, step))
  {
    if WorkerStep(step) { WorkerStepKeeps(s, step); }
    else if AssemblyStep(step) { AssemblyStepKeeps(s, step); }
    else if IntegrationStep(step) { IntegrationStepKeeps(s, step); }
    else if HousekeepingStep(step) { HousekeepingStepKeeps(s, step); }
    else if LockedBatch(s, step).Some? {
      LockedStepWrites(s, step);
      var o := Apply(s, step);
      if o.Some? {
        var id := LockedBatch(s, step).value;
        LockedWriteKeeps(s, o.value, id, o.value.batches[id]);
      }
    }
  }

  /** In every run: revision n holds revisions 1..n-1 superseded, every candidate's evidence and
      approval are its own, and a pending revision fits the batch it will replace. */
  lemma {:induction false} RunKeepsRecords(serialized: seq<string>, states: seq<State>, steps: seq<Step>, k: nat)
    requires Run(serialized, states, steps) && k < |states|
    ensures RecordsOk(states[k])
  {
    if k > 0 {
      RunKeepsRecords(serialized, states, steps, k - 1);
      StepKeepsRecords(states[k - 1], steps[k - 1]);
    }
  }
}
