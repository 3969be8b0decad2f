/**
 A batch lock protects its holder's view: what the holder may act on is the stored record. The catch
 block of an integration is the one writer that does not take that lock, and the condition under
 which it does no harm is exact.
 */
module CurrentViews {
  import opened Common
  import opened Records
  import opened Coordinate
  import opened BatchRecords

  ghost predicate StaysCurrent(o: Outcome) {
    o.Some? ==> ViewsCurrent(o.value)
  }

  /** The condition under which the catch block of an integration is safe: nobody else may be working on
      the batch while the block rewrites its record, unless what he sees is what the block writes. */
  predicate CatchOrderly(s: State, step: Step) {
    step.SFailIntegration? && s.integration.Building? && s.integration.id in s.views && Usable(s.views[s.integration.id]) ==>
      s.views[s.integration.id] == CatchRecord(s)
  }

  /** The condition is exact for a catch block: run against it, the block leaves somebody acting on a
      record that is no longer the stored one. */
  lemma CatchKeepsViewsExactly(s: State, culprit: Option<TaskId>, maxAttempts: nat)
    requires RecordsOk(s) && ViewsCurrent(s) && FailIntegration(s, culprit, maxAttempts).Some?
    ensures ViewsCurrent(FailIntegration(s, culprit, maxAttempts).value)
            <==> CatchOrderly(s, SFailIntegration(culprit, maxAttempts))
  {
    var id, t := s.integration.id, FailIntegration(s, culprit, maxAttempts).value;
    assert t.batches == s.batches[id := CatchRecord(s)] && t.views == s.views;
    if id in s.views { assert Current(t.views[id], t.batches[id]) <==> (Usable(s.views[id]) ==> s.views[id] == CatchRecord(s)); }
  }

  /** A write under the integration lock to a record that no view in use is of. */
  lemma UnseenStaysCurrent(s: State, t: State, id: BatchId)
    requires ViewsCurrent(s) && t.views == s.views && id in t.batches && t.batches == s.batches[id := t.batches[id]]
    requires id in s.views ==> !Usable(s.views[id])
    ensures ViewsCurrent(t)
  {
    forall k | k in t.views && k in t.batches ensures Current(t.views[k], t.batches[k]) {
      if k != id { assert Current(s.views[k], s.batches[k]); }
    }
  }

  lemma UnassembledUnseen(s: State, id: BatchId)
    requires ViewsCurrent(s) && id in s.batches && !Usable(s.batches[id])
    ensures id in s.views ==> !Usable(s.views[id])
  {
    if id in s.views { assert Current(s.views[id], s.batches[id]); }
  }

  lemma RecoverBatchStays(s: State, id: BatchId)
    requires ViewsCurrent(s)
    ensures ViewsCurrent(RecoverBatch(s, id))
  {
    if id in s.batches && s.batches[id].status == Running {
      UnassembledUnseen(s, id);
      UnseenStaysCurrent(s, RecoverBatch(s, id), id);
    }
  }

  lemma {:induction false} RecoverEachStays(s: State, ids: seq<BatchId>)
    requires ViewsCurrent(s)
    ensures ViewsCurrent(RecoverEach(s, ids))
    decreases |ids|
  {
    if ids != [] {
      RecoverBatchStays(s, ids[0]);
      RecoverEachStays(RecoverBatch(s, ids[0]), ids[1..]);
    }
  }

  lemma StartStays(s: State, id: BatchId, plan: seq<Task>, branch: nat, sha: Sha, bound: bool, local: bool)
    requires ViewsCurrent(s)
    ensures StaysCurrent(StartBatch(s, id, plan, branch, sha, bound, local))
  {
    var o := StartBatch(s, id, plan, branch, sha, bound, local);
    if o.Some? { UnseenStaysCurrent(s, o.value, id); }
  }

  lemma MemWriteStays(s: State, step: Step)
    requires RecordsOk(s) && ViewsCurrent(s) && (step.SRecordBranch? || step.SFinishDryRun? || step.SPrepare?)
    ensures StaysCurrent(Apply(s, step))
  {
    if Apply(s, step).Some? {
      UnassembledUnseen(s, s.integration.id);
      UnseenStaysCurrent(s, Apply(s, step).value, s.integration.id);
    }
  }

  lemma AssemblyStays(s: State, step: Step)
    requires RecordsOk(s) && ViewsCurrent(s) && AssemblyStep(step) && !step.SFailIntegration?
    ensures StaysCurrent(Apply(s, step))
  {
    if step.SStart? { StartStays(s, step.id, step.plan, step.branch, step.sha, step.bound, step.local); }
    else { MemWriteStays(s, step); }
  }

  lemma LockStepStays(s: State, step: Step)
    requires ViewsCurrent(s) && (step.STakeIntegration? || step.SDropIntegration? || step.SCheckOutstanding?)
    ensures StaysCurrent(Apply(s, step))
  {
  }

  lemma BeginRevisionStays(s: State, id: BatchId, t: TaskId, token: nat, pr: PullRequest)
    requires ViewsCurrent(s)
    ensures StaysCurrent(BeginRevision(s, id, t, token, pr))
  {
  }

  lemma FinishRevisionStays(s: State)
    requires ViewsCurrent(s)
    ensures StaysCurrent(FinishRevision(s))
  {
  }

  lemma RecoverRevisionStays(s: State, id: BatchId, branchHead: Sha)
    requires ViewsCurrent(s)
    ensures StaysCurrent(RecoverRevision(s, id, branchHead))
  {
    var o := RecoverRevision(s, id, branchHead);
    if o.Some? {
      UnassembledUnseen(s, id);
      UnseenStaysCurrent(s, o.value, id);
    }
  }

  lemma IntegrationStays(s: State, step: Step)
    requires ViewsCurrent(s) && IntegrationStep(step) && !AssemblyStep(step)
    ensures StaysCurrent(Apply(s, step))
  {
    match step
    case SRecoverRunning(ids) => RecoverEachStays(s, ids);
    case SBeginRevision(id, t, token, pr) => BeginRevisionStays(s, id, t, token, pr);
    case SFinishRevision => FinishRevisionStays(s);
    case SRecoverRevision(id, branchHead) => RecoverRevisionStays(s, id, branchHead);
    case _ => LockStepStays(s, step);
  }

  lemma HousekeepingStays(s: State, step: Step)
    requires ViewsCurrent(s) && HousekeepingStep(step)
    ensures StaysCurrent(Apply(s, step))
  {
  }

  lemma WriteStays(s: State, o: Outcome, id: BatchId)
    requires ViewsCurrent(s) && Wrote(s, o, id)
    ensures StaysCurrent(o)
  {
  }

  lemma OtherStepStays(s: State, step: Step)
    requires RecordsOk(s) && ViewsCurrent(s) && !step.SFailIntegration?
    ensures StaysCurrent(Apply(s, step))
  {
    if WorkerStep(step) { WorkerWritesTasks(s, step); }
    else if AssemblyStep(step) { AssemblyStays(s, step); }
    else if IntegrationStep(step) { IntegrationStays(s, step); }
    else if HousekeepingStep(step) { HousekeepingStays(s, step); }
    else if LockedBatch(s, step).Some? {
      LockedStepWrites(s, step);
      WriteStays(s, Apply(s, step), LockedBatch(s, step).value);
    }
  }

  /** And for every step: no other one can part a holder's view from the stored record. */
  lemma StepKeepsViewsExactly(s: State, step: Step)
    requires RecordsOk(s) && ViewsCurrent(s) && Apply(s, step).Some?
    ensures ViewsCurrent(Apply(s, step).value) <==> CatchOrderly(s, step)
  {
    if step.SFailIntegration? { CatchKeepsViewsExactly(s, step.culprit, step.maxAttempts); } else { OtherStepStays(s, step); }
  }

  lemma RunStepKeepsViewsExactly(serialized: seq<string>, states: seq<State>, steps: seq<Step>, i: nat)
    requires Run(serialized, states, steps) && i < |steps| && ViewsCurrent(states[i])
    ensures ViewsCurrent(states[i + 1]) <==> CatchOrderly(states[i], steps[i])
  {
    RunKeepsRecords(serialized, states, steps, i);
    StepOf(serialized, states, steps, i);
    StepKeepsViewsExactly(states[i], steps[i]);
  }

  lemma {:induction false} RunKeepsViewsCurrent(serialized: seq<string>, states: seq<State>, steps: seq<Step>, k: nat)
    requires Run(serialized, states, steps) && k < |states| && forall i | 0 <= i < k :: CatchOrderly(states[i], steps[i])
    ensures ViewsCurrent(states[k])
  {
    if k > 0 {
      RunKeepsViewsCurrent(serialized, states, steps, k - 1);
      RunStepKeepsViewsExactly(serialized, states, steps, k - 1);
    }
  }

  /** Over every run: whoever may act on a batch always has its stored record before him, exactly when no
      catch block races the holder of a batch lock. */
  lemma RunKeepsViewsExactly(serialized: seq<string>, states: seq<State>, steps: seq<Step>)
    requires Run(serialized, states, steps)
    ensures (forall k | 0 <= k < |states| :: ViewsCurrent(states[k]))
            <==> (forall i | 0 <= i < |steps| :: CatchOrderly(states[i], steps[i]))
  {
    if forall i | 0 <= i < |steps| :: CatchOrderly(states[i], steps[i]) {
      forall k | 0 <= k < |states| ensures ViewsCurrent(states[k]) { RunKeepsViewsCurrent(serialized, states, steps, k); }
    }
    if forall k | 0 <= k < |states| :: ViewsCurrent(states[k]) {
      forall i | 0 <= i < |steps| ensures CatchOrderly(states[i], steps[i]) {
        RunStepKeepsViewsExactly(serialized, states, steps, i);
        assert ViewsCurrent(states[i + 1]);
      }
    }
  }
}
