/**
 The transactions in the form the broker runs them: each works on its own copy of the records, one
 task after another, and either stores the copy or throws and stores nothing. Every method is
 proved to do what the state machine's step does, so what is proved there holds of these loops.
 */
module BrokerStore {
  import opened Common
  import opened Records
  import opened CandidateLifecycle
  import opened Coordinate
  import Patterns
  import Provenance
  import TaskOutcomes

  // ---- Editing tasks one by one ----

  /** Doing an edit twice is doing it once, so a repeated identifier would not matter. */
  predicate Repeatable(e: Edit) {
    !e.IntegrationFailed?
  }

  lemma NextTaskEdited(tasks: map<TaskId, Task>, ids: seq<TaskId>, i: nat, e: Edit, now: Instant, id: TaskId)
    requires i < |ids| && ids[i] == id && id in tasks && (Repeatable(e) || id !in ids[..i])
    ensures var before := EditTasks(tasks, ids[..i], e, now);
            EditTasks(tasks, ids[..i + 1], e, now) == before[id := Applied(e, id, before[id], now)]
  {
    assert ids[..i + 1] == ids[..i] + [id];
  }

  lemma NoneEdited(tasks: map<TaskId, Task>, e: Edit, now: Instant)
    ensures EditTasks(tasks, [], e, now) == tasks
  {
  }

  predicate Touches(paths: seq<string>, resource: string) {
    Patterns.SetsMayOverlap(paths, [resource])
  }

  predicate Shares(patterns: seq<string>, left: seq<string>, right: seq<string>) {
    exists j | 0 <= j < |patterns| :: Touches(left, patterns[j]) && Touches(right, patterns[j])
  }

  lemma ClashMeans(s: State, left: seq<string>, right: seq<string>)
    ensures ScopesClash(s, left, right) <==> Patterns.SetsMayOverlap(left, right) || Shares(s.serialized, left, right)
  {
    var both := Resources(s, left) * Resources(s, right);
    if j: nat :| j < |s.serialized| && Touches(left, s.serialized[j]) && Touches(right, s.serialized[j]) {
      assert s.serialized[j] in both;
    }
    if both != {} {
      var r :| r in both;
      var j :| 0 <= j < |s.serialized| && s.serialized[j] == r;
      assert Touches(left, s.serialized[j]) && Touches(right, s.serialized[j]);
    }
  }

  /** Whether two scopes touch one serialized pattern, tried pattern by pattern. */
  method FindShared(patterns: seq<string>, left: seq<string>, right: seq<string>) returns (shared: bool)
    ensures shared == Shares(patterns, left, right)
  {
    for i := 0 to |patterns|
      invariant forall j | 0 <= j < i :: !(Touches(left, patterns[j]) && Touches(right, patterns[j]))
    {
      var l, r := Touches(left, patterns[i]), Touches(right, patterns[i]);
      if l && r { return true; }
    }
    return false;
  }

  class Broker {
    var tasks: map<TaskId, Task>
    var batches: map<BatchId, Batch>
    var views: map<BatchId, Batch>
    var integration: Integration
    var serialized: seq<string>
    var now: Instant

    function Abs(): State
      reads this
    {
      State(tasks, batches, views, integration, serialized, now)
    }

    constructor (patterns: seq<string>)
      ensures Abs() == Initial(patterns)
    {
      tasks, batches, views, integration, serialized, now := map[], map[], map[], Free, patterns, 0;
    }

    /** Whether another unexpired lease overlaps, looked for lease by lease. */
    method LeaseConflict(id: TaskId, paths: seq<string>) returns (conflict: bool)
      ensures conflict <==> !NoLeaseConflict(Abs(), id, paths)
    {
      var left := tasks.Keys;
      while left != {}
        invariant left <= tasks.Keys
        invariant forall k | k in tasks && k !in left && k != id && LeaseLive(tasks[k], now) ::
                    !ScopesClash(Abs(), paths, tasks[k].expectedPaths)
        decreases left
      {
        var k :| k in left;
        left := left - {k};
        if k != id && LeaseLive(tasks[k], now) {
          ClashMeans(Abs(), paths, tasks[k].expectedPaths);
          if Patterns.SetsMayOverlap(paths, tasks[k].expectedPaths) { return true; }
          var shared := FindShared(serialized, paths, tasks[k].expectedPaths);
          if shared { return true; }
        }
      }
      return false;
    }

    method ClaimTask(id: TaskId, baseSha: Sha, paths: Option<seq<string>>, deps: Option<seq<TaskId>>,
                     priority: Option<int>, lease: Lease) returns (ok: bool)
      modifies this
      ensures var o := Coordinate.ClaimTask(old(Abs()), id, baseSha, paths, deps, priority, lease);
              ok == o.Some? && Abs() == if ok then o.value else old(Abs())
    {
      var task := if id in tasks then tasks[id]
                  else Task(id, Registered, OrElse(priority, 0), baseSha, OrElse(paths, []), Dedup(OrElse(deps, [])),
                            Receipt([], [], None), None, None, 0, now, None);
      if task.status != Registered && task.status != Claimed && task.status != Failed { return false; }
      if LeaseLive(task, now) { return false; }
      var expected := if paths.Some? then paths.value else task.expectedPaths;
      if expected == [] { return false; }
      var conflict := LeaseConflict(id, expected);
      if conflict { return false; }
      task := task.(status := Claimed, expectedPaths := Dedup(expected));
      if deps.Some? { task := task.(dependsOn := Dedup(deps.value)); }
      else { task := task.(dependsOn := Dedup(task.dependsOn)); }
      if priority.Some? { task := task.(priority := priority.value); }
      task := task.(lease := Some(lease), updatedAt := now);
      tasks := tasks[id := task];
      return true;
    }

    method StartBatch(id: BatchId, plan: seq<Task>, baseBranch: nat, baseSha: Sha, targetBound: bool, localOnly: bool)
      returns (ok: bool)
      modifies this
      ensures var o := Coordinate.StartBatch(old(Abs()), id, plan, baseBranch, baseSha, targetBound, localOnly);
              ok == o.Some? && Abs() == if ok then o.value else old(Abs())
    {
      if !integration.Cleared? || plan == [] || id in batches || id in views { return false; }
      var ids: seq<TaskId> := [];
      var i := 0;
      while i < |plan|
        modifies {}
        invariant i <= |plan| && |ids| == i
        invariant forall j | 0 <= j < i :: ids[j] == plan[j].id
        invariant forall j | 0 <= j < i ::
                    plan[j].id in tasks && tasks[plan[j].id].status == Submitted && SameReceipt(tasks[plan[j].id], plan[j])
        invariant forall j, k | 0 <= j < k < i :: plan[j].id != plan[k].id
      {
        if plan[i].id !in tasks || tasks[plan[i].id].status != Submitted { return false; }
        if !SameReceipt(tasks[plan[i].id], plan[i]) { return false; }
        if plan[i].id in ids {
          ghost var j :| 0 <= j < i && ids[j] == plan[i].id;
          return false;
        }
        ids := ids + [plan[i].id];
        i := i + 1;
      }
      var b := Started(ids, baseBranch, baseSha, targetBound, localOnly, now);
      var next := tasks;
      i := 0;
      NoneEdited(tasks, EnterIntegration(id), now);
      while i < |ids|
        modifies {}
        invariant i <= |ids| && next.Keys == tasks.Keys
        invariant next == EditTasks(tasks, ids[..i], EnterIntegration(id), now)
      {
        NextTaskEdited(tasks, ids, i, EnterIntegration(id), now, ids[i]);
        next := next[ids[i] := next[ids[i]].(status := Integrating, batchId := Some(id), updatedAt := now)];
        i := i + 1;
      }
      assert ids[..i] == ids;
      assert ids == seq(|plan|, k requires 0 <= k < |plan| => plan[k].id);
      tasks, batches, integration := next, batches[id := b], Building(id, b, integration.force, integration.dry);
      return true;
    }

    method PrepareBatch() returns (ok: bool)
      modifies this
      ensures var o := Coordinate.PrepareBatch(old(Abs()));
              ok == o.Some? && Abs() == if ok then o.value else old(Abs())
    {
      if !integration.Building? || integration.mem.status != Running || integration.mem.branchName.None? { return false; }
      var b := integration.mem.(status := Prepared);
      var ids, next, i := b.taskIds, tasks, 0;
      NoneEdited(tasks, ToBatched, now);
      while i < |ids|
        modifies {}
        invariant i <= |ids| && forall j | 0 <= j < i :: ids[j] in tasks
        invariant next == EditTasks(tasks, ids[..i], ToBatched, now)
      {
        if ids[i] !in next { assert ids[i] in ids; return false; }
        NextTaskEdited(tasks, ids, i, ToBatched, now, ids[i]);
        next := next[ids[i] := next[ids[i]].(status := Batched, lease := None, updatedAt := now)];
        i := i + 1;
      }
      assert ids[..i] == ids;
      tasks, batches, integration := next, batches[integration.id := b], integration.(mem := b);
      return true;
    }

    /** The catch block: attempts are counted, and only a task that was not the culprit is queued again. */
    method FailIntegration(culprit: Option<TaskId>, maxAttempts: nat) returns (ok: bool)
      requires integration.Building? ==> Distinct(integration.mem.taskIds)
      modifies this
      ensures var o := Coordinate.FailIntegration(old(Abs()), culprit, maxAttempts);
              ok == o.Some? && Abs() == if ok then o.value else old(Abs())
      ensures ok ==>
                forall k | k in old(integration).mem.taskIds ::
                  k in old(tasks) && k in tasks
                  && TaskOutcomes.FailsAsItShould(old(tasks)[k], tasks[k], k, old(integration).dry, culprit, maxAttempts)
    {
      if !integration.Building? { return false; }
      var b := integration.mem.(status := BatchFailed, finishedAt := Some(now), branchName := None);
      ghost var e := IntegrationFailed(culprit, integration.dry, maxAttempts);
      var ids, next, i := b.taskIds, tasks, 0;
      NoneEdited(tasks, e, now);
      while i < |ids|
        modifies {}
        invariant i <= |ids| && forall j | 0 <= j < i :: ids[j] in tasks
        invariant next == EditTasks(tasks, ids[..i], e, now)
      {
        var id := ids[i];
        if id !in next { assert id in ids; return false; }
        NextTaskEdited(tasks, ids, i, e, now, id);
        var task := next[id].(batchId := None, updatedAt := now);
        if integration.dry {
          task := task.(status := Submitted);
        } else if culprit.Some? && id != culprit.value && task.attempts + 1 < maxAttempts {
          task := task.(attempts := task.attempts + 1, status := Submitted);
        } else {
          task := task.(status := Failed);
        }
        next := next[id := task];
        i := i + 1;
      }
      assert ids[..i] == ids;
      TaskOutcomes.FailedIntegration(Abs(), culprit, maxAttempts);
      tasks, batches, integration := next, batches[integration.id := b], Free;
      return true;
    }

    /** Every abandoned integration in turn; tasks that moved on since are left alone. */
    method RecoverRunning(ids: seq<BatchId>) returns (ok: bool)
      modifies this
      ensures var o := Coordinate.RecoverRunning(old(Abs()), ids);
              ok == o.Some? && Abs() == if ok then o.value else old(Abs())
    {
      if !integration.Recovering? { return false; }
      var k := 0;
      while k < |ids|
        invariant k <= |ids|
        invariant integration == old(integration)
        invariant RecoverEach(Abs(), ids[k..]) == RecoverEach(old(Abs()), ids)
      {
        assert ids[k..][0] == ids[k] && ids[k..][1..] == ids[k + 1..];
        ghost var before := Abs();
        if ids[k] in batches && batches[ids[k]].status == Running { RecoverOne(ids[k]); }
        assert Abs() == RecoverBatch(before, ids[k]);
        k := k + 1;
      }
      return true;
    }

    method RecoverOne(id: BatchId)
      requires id in batches && batches[id].status == Running
      modifies this
      ensures Abs() == RecoverBatch(old(Abs()), id)
    {
      var b := batches[id].(status := BatchFailed, finishedAt := Some(now));
      var ids, next, i := b.taskIds, tasks, 0;
      NoneEdited(tasks, Recover(id), now);
      while i < |ids|
        modifies {}
        invariant i <= |ids|
        invariant next == EditTasks(tasks, ids[..i], Recover(id), now)
      {
        if ids[i] in next {
          NextTaskEdited(tasks, ids, i, Recover(id), now, ids[i]);
          var task := next[ids[i]];
          if task.status == Integrating && task.batchId == Some(id) {
            next := next[ids[i] := task.(status := Submitted, batchId := None, updatedAt := now)];
          } else {
            assert next[ids[i] := task] == next;
          }
        } else {
          assert ids[..i + 1] == ids[..i] + [ids[i]];
        }
        i := i + 1;
      }
      assert ids[..i] == ids;
      tasks, batches := next, batches[id := b];
    }

    /** `closeBatchLocked`: everything is checked before anything is written. */
    method CloseLocked(id: BatchId, changeRequest: bool, revocation: bool, refreshRequired: bool, refreshClose: bool)
      returns (ok: bool)
      modifies this
      ensures var o := Coordinate.CloseLocked(old(Abs()), id, changeRequest, revocation, refreshRequired, refreshClose);
              ok == o.Some? && Abs() == if ok then o.value else old(Abs())
    {
      if !Held(Abs(), id) { return false; }
      var b := batches[id];
      if !ClosePermitted(b, changeRequest, revocation, refreshRequired, refreshClose) { return false; }
      var reassigned := FindReassigned(id, b.taskIds);
      if reassigned || !Outstanding(b) { return false; }
      var closed := AsClosed(b, Abandoned, now);
      var ids, next, i := b.taskIds, tasks, 0;
      NoneEdited(tasks, Pause, now);
      while i < |ids|
        modifies {}
        invariant i <= |ids|
        invariant next == EditTasks(tasks, ids[..i], Pause, now)
      {
        assert ids[i] in ids;
        NextTaskEdited(tasks, ids, i, Pause, now, ids[i]);
        var task := next[ids[i]];
        if task.status != Merged {
          next := next[ids[i] := task.(status := Failed, batchId := None, updatedAt := now)];
        } else {
          assert next[ids[i] := task] == next;
        }
        i := i + 1;
      }
      assert ids[..i] == ids;
      tasks, batches, views := next, batches[id := closed], views[id := closed];
      return true;
    }

    /** A listed task that is unknown, which throws, or that names another batch, which refuses. */
    method FindReassigned(id: BatchId, ids: seq<TaskId>) returns (found: bool)
      ensures found <==> !TasksKnown(Abs(), ids) || Reassigned(Abs(), id, ids)
    {
      var i := 0;
      while i < |ids|
        modifies {}
        invariant i <= |ids|
        invariant forall j | 0 <= j < i :: ids[j] in tasks && (tasks[ids[j]].batchId.Some? ==> tasks[ids[j]].batchId == Some(id))
      {
        if ids[i] !in tasks || (tasks[ids[i]].batchId.Some? && tasks[ids[i]].batchId.value != id) {
          assert ids[i] in ids;
          return true;
        }
        i := i + 1;
      }
      forall t | t in ids ensures t in tasks && (tasks[t].batchId.Some? ==> tasks[t].batchId == Some(id)) {
        var j :| 0 <= j < |ids| && ids[j] == t;
      }
      return false;
    }

    /** Completion asks for a candidate if one is recorded or the policy wants one, and then for its approval. */
    method CandidateApproved(candidate: Option<Candidate>, p: Policy) returns (ok: bool)
      ensures ok <==> (candidate.Some? || p.required ==>
                         candidate.Some? && p.required && PolicyCurrent(p, candidate.value)
                         && var c := candidate.value;
                            c.approval.Some? && c.approval.value.confirmed && !c.approval.value.revocationRequested
                            && ApprovalBound(c))
    {
      if candidate.None? && !p.required { return true; }
      if candidate.None? || !p.required { return false; }
      var c := candidate.value;
      if !PolicyCurrent(p, c) || c.approval.None? { return false; }
      var approval := c.approval.value;
      return approval.confirmed && !approval.revocationRequested && approval.sha == c.sha && approval.baseSha == c.baseSha
             && approval.policyRevision == c.policyRevision;
    }

    /** Every listed task in turn, on a copy. */
    method MergeTasks(ids: seq<TaskId>, at: Instant) returns (next: map<TaskId, Task>)
      requires TasksKnown(Abs(), ids)
      ensures next == EditTasks(tasks, ids, ToMerged(at), now)
    {
      next := tasks;
      var i := 0;
      NoneEdited(tasks, ToMerged(at), now);
      while i < |ids|
        modifies {}
        invariant i <= |ids|
        invariant next == EditTasks(tasks, ids[..i], ToMerged(at), now)
      {
        assert ids[i] in ids;
        NextTaskEdited(tasks, ids, i, ToMerged(at), now, ids[i]);
        next := next[ids[i] := next[ids[i]].(status := Merged, mergedAt := Some(at), updatedAt := now)];
        i := i + 1;
      }
      assert ids[..i] == ids;
    }

    /** `markBatchMergedLocked`. */
    method MarkMergedLocked(id: BatchId, p: Policy, at: Instant) returns (ok: bool)
      modifies this
      ensures var o := Coordinate.MarkMergedLocked(old(Abs()), id, p, at);
              ok == o.Some? && Abs() == if ok then o.value else old(Abs())
    {
      if !Held(Abs(), id) { return false; }
      var b := batches[id];
      if b.revision.Some? || b.changeRequest.Some? || b.refreshRequired || b.refreshClose.Some? { return false; }
      if !Outstanding(b) && b.status != Closed && b.status != BatchMerged { return false; }
      var reassigned := FindReassigned(id, b.taskIds);
      if reassigned { return false; }
      var approved := CandidateApproved(b.candidate, p);
      if !approved { return false; }
      var next := MergeTasks(b.taskIds, at);
      if b.candidate.Some? { b := b.(candidate := Some(b.candidate.value.(state := CandidateMerged))); }
      b := b.(status := BatchMerged, finishedAt := Some(at), autoMergeEnabled := Some(false), autoMergePending := false);
      assert b == AsMerged(batches[id], at);
      tasks, batches, views := next, batches[id := b], views[id := b];
      return true;
    }

    /** `finalizeCandidateRevision`, which the revising process and recovery share. */
    method FinalizeRevision(id: BatchId) returns (ok: bool)
      modifies this
      ensures var o := Coordinate.FinalizeRevision(old(Abs()), id);
              ok == o.Some? && Abs() == if ok then o.value else old(Abs())
    {
      if id !in batches || batches[id].revision.None? || batches[id].candidate.None? { return false; }
      var stored := batches[id];
      var intent, candidate := stored.revision.value, stored.candidate.value;
      if candidate.sha != intent.previousSha || candidate.state != ChangesRequested { return false; }
      var next := intent.next.(history := stored.history + [candidate.(state := Superseded)], revision := None);
      if intent.taskId !in tasks { return false; }
      var i := 0;
      while i < |next.taskIds|
        modifies {}
        invariant i <= |next.taskIds| && forall j | 0 <= j < i :: next.taskIds[j] in tasks
      {
        if next.taskIds[i] !in tasks { assert next.taskIds[i] in intent.next.taskIds; return false; }
        i := i + 1;
      }
      var task := tasks[intent.taskId];
      task := task.(receipt := intent.revised, lease := None, updatedAt := now);
      tasks, batches := tasks[intent.taskId := task], batches[id := next];
      return true;
    }

    /** Publication: the batch and each of its tasks. */
    method PublishBatch(id: BatchId, url: Option<nat>) returns (ok: bool)
      modifies this
      ensures var o := Coordinate.PublishBatch(old(Abs()), id, url);
              ok == o.Some? && Abs() == if ok then o.value else old(Abs())
    {
      if !Held(Abs(), id) { return false; }
      var v := views[id];
      if !Publishable(v) || v.branchName.None? || v.headSha.None? { return false; }
      if v.status == BatchPublished && v.pullRequest.Some? && v.refreshRequired { return false; }
      var b := batches[id];
      b := b.(status := BatchPublished, refreshRequired := false, refreshClose := None);
      if url.Some? { b := b.(pullRequest := url); }
      var ids, next, i := b.taskIds, tasks, 0;
      NoneEdited(tasks, ToPublished, now);
      while i < |ids|
        modifies {}
        invariant i <= |ids| && forall j | 0 <= j < i :: ids[j] in tasks
        invariant next == EditTasks(tasks, ids[..i], ToPublished, now)
      {
        if ids[i] !in next { assert ids[i] in batches[id].taskIds; return false; }
        NextTaskEdited(tasks, ids, i, ToPublished, now, ids[i]);
        next := next[ids[i] := next[ids[i]].(status := Published, updatedAt := now)];
        i := i + 1;
      }
      assert ids[..i] == ids;
      tasks, batches, views := next, batches[id := b], views[id := b];
      return true;
    }

    /** The last transaction of a refresh: the batch is superseded and its tasks are queued again. */
    method FinishRefresh(id: BatchId) returns (ok: bool)
      modifies this
      ensures var o := Coordinate.FinishRefresh(old(Abs()), id);
              ok == o.Some? && Abs() == if ok then o.value else old(Abs())
    {
      if !Held(Abs(), id) || !Refreshing(views[id]) { return false; }
      var b := AsClosed(batches[id], Superseded, now).(branchName := None);
      var ids, next, i := b.taskIds, tasks, 0;
      NoneEdited(tasks, Requeue, now);
      while i < |ids|
        modifies {}
        invariant i <= |ids| && forall j | 0 <= j < i :: ids[j] in tasks
        invariant next == EditTasks(tasks, ids[..i], Requeue, now)
      {
        if ids[i] !in next { assert ids[i] in batches[id].taskIds; return false; }
        NextTaskEdited(tasks, ids, i, Requeue, now, ids[i]);
        var task := next[ids[i]];
        if task.status != Merged {
          next := next[ids[i] := task.(status := Submitted, batchId := None, updatedAt := now)];
        } else {
          assert next[ids[i] := task] == next;
        }
        i := i + 1;
      }
      assert ids[..i] == ids;
      tasks, batches, views := next, batches[id := b], views[id := b];
      return true;
    }

    /** `recordVerification`: the name's earlier result goes, the new one is appended, and the candidate's
        state follows from what is recorded. */
    method RecordVerification(id: BatchId, name: string, passed: bool, binding: Binding, p: Policy, pr: PullRequest)
      returns (ok: bool)
      modifies this
      ensures var o := Coordinate.RecordVerification(old(Abs()), id, name, passed, binding, p, pr);
              ok == o.Some? && Abs() == if ok then o.value else old(Abs())
      ensures ok ==>
                id in batches && batches[id].candidate.Some?
                && (Passes(batches[id].candidate.value, name) <==> passed) && (Fails(batches[id].candidate.value, name) <==> !passed)
    {
      if !Held(Abs(), id) || !p.required || name !in p.verifications { return false; }
      var v := views[id];
      if v.revision.Some? || v.status != BatchPublished || v.pullRequest.None? || v.candidate.None? { return false; }
      if !BindingMatches(v.candidate.value, binding) || !PolicyCurrent(p, v.candidate.value)
         || !OpenAtCandidate(pr, v.candidate.value)
      {
        return false;
      }
      if batches[id].candidate.None? { return false; }
      var c := batches[id].candidate.value;
      if !BindingMatches(c, binding) { return false; }
      if c.state == Approved || c.state == Merging || c.state == Superseded || c.state == CandidateState.Abandoned
         || c.state == CandidateMerged
      {
        return false;
      }
      Provenance.VerificationIsRecorded(Abs(), id, name, passed, binding, p, pr);
      var kept := EvidenceWithout(c.evidence, name);
      c := c.(evidence := kept + [Evidence(name, passed, c.sha, c.baseSha, c.policyRevision)]);
      c := c.(state := StateOf(c));
      var b := batches[id].(candidate := Some(c));
      batches, views := batches[id := b], views[id := b];
      return true;
    }
  }

  /** The filter of `upsertEvidence`. */
  method EvidenceWithout(es: seq<Evidence>, name: string) returns (kept: seq<Evidence>)
    ensures kept == Without(es, name)
  {
    kept := [];
    for i := 0 to |es|
      invariant kept + Without(es[i..], name) == Without(es, name)
    {
      assert es[i..][0] == es[i] && es[i..][1..] == es[i + 1..];
      if es[i].name != name { kept := kept + [es[i]]; }
    }
  }
}
