/**
 Two tasks with unexpired leases never have clashing scopes: in every state of every run, whatever
 is claimed, extended, kept alive, reopened or released, and however much time passes.
 */
module LeaseExclusion {
  import opened Common
  import opened Records
  import opened Coordinate
  import Patterns

  predicate Live(s: State, t: TaskId) {
    t in s.tasks && LeaseLive(s.tasks[t], s.now)
  }

  ghost predicate LeasesDisjoint(s: State) {
    forall a, b | Live(s, a) && Live(s, b) && a != b ::
      !ScopesClash(s, s.tasks[a].expectedPaths, s.tasks[b].expectedPaths)
  }

  // ---- The clash test ----

  lemma ClashSymmetric(s: State, left: seq<string>, right: seq<string>)
    ensures ScopesClash(s, left, right) == ScopesClash(s, right, left)
  {
    Patterns.SetOverlapSymmetric(left, right);
  }

  lemma OverlapBySharedMembers(left: seq<string>, right: seq<string>, other: seq<string>)
    requires forall x | x in left :: x in right
    ensures Patterns.SetsMayOverlap(left, other) ==> Patterns.SetsMayOverlap(right, other)
  {
    if Patterns.SetsMayOverlap(left, other) {
      var i :| 0 <= i < |left| && exists j | 0 <= j < |other| :: Patterns.PatternsMayOverlap(left[i], other[j]);
      assert left[i] in left;
      var k :| 0 <= k < |right| && right[k] == left[i];
    }
  }

  /** Dropping repeated patterns changes no answer. */
  lemma DedupClashes(s: State, paths: seq<string>, other: seq<string>)
    ensures ScopesClash(s, Dedup(paths), other) == ScopesClash(s, paths, other)
  {
    DedupKeepsElements(paths);
    OverlapBySharedMembers(paths, Dedup(paths), other);
    OverlapBySharedMembers(Dedup(paths), paths, other);
    forall r | r in s.serialized
      ensures Patterns.SetsMayOverlap(paths, [r]) == Patterns.SetsMayOverlap(Dedup(paths), [r])
    {
      OverlapBySharedMembers(paths, Dedup(paths), [r]);
      OverlapBySharedMembers(Dedup(paths), paths, [r]);
    }
    assert Resources(s, paths) == Resources(s, Dedup(paths));
  }

  // ---- Steps that grant or widen nothing ----

  /** Every live lease of `t` was live in `s`, with the same scope. */
  ghost predicate LeasesOnlyShrink(s: State, t: State) {
    t.serialized == s.serialized
    && forall k | Live(t, k) :: Live(s, k) && t.tasks[k].expectedPaths == s.tasks[k].expectedPaths
  }

  lemma ShrinkKeeps(s: State, t: State)
    requires LeasesDisjoint(s) && LeasesOnlyShrink(s, t)
    ensures LeasesDisjoint(t)
  {
    forall a, b | Live(t, a) && Live(t, b) && a != b
      ensures !ScopesClash(t, t.tasks[a].expectedPaths, t.tasks[b].expectedPaths)
    {
      assert Live(s, a) && Live(s, b);
      assert forall paths :: Resources(t, paths) == Resources(s, paths);
    }
  }

  lemma EditsShrink(s: State, t: State, ids: seq<TaskId>, e: Edit)
    requires t.tasks == EditTasks(s.tasks, ids, e, s.now) && t.serialized == s.serialized && t.now == s.now
    ensures LeasesOnlyShrink(s, t)
  {
  }

  lemma ShrinkTrans(s: State, t: State, u: State)
    requires LeasesOnlyShrink(s, t) && LeasesOnlyShrink(t, u)
    ensures LeasesOnlyShrink(s, u)
  {
  }

  lemma {:induction false} RecoveryShrinks(s: State, ids: seq<BatchId>)
    ensures LeasesOnlyShrink(s, RecoverEach(s, ids))
    decreases |ids|
  {
    if ids != [] {
      var t := RecoverBatch(s, ids[0]);
      if ids[0] in s.batches && s.batches[ids[0]].status == Running {
        EditsShrink(s, t, s.batches[ids[0]].taskIds, Recover(ids[0]));
      }
      RecoveryShrinks(t, ids[1..]);
      ShrinkTrans(s, t, RecoverEach(s, ids));
    }
  }

  // ---- Steps that grant or widen a lease ----

  /** One task is given `paths`, after a look at every other live lease. */
  lemma GrantKeeps(s: State, t: State, id: TaskId, task: Task, checked: seq<string>)
    requires LeasesDisjoint(s) && NoLeaseConflict(s, id, checked)
    requires t.tasks == s.tasks[id := task] && t.serialized == s.serialized && t.now == s.now
    requires task.expectedPaths == checked || task.expectedPaths == Dedup(checked)
    ensures LeasesDisjoint(t)
  {
    assert forall paths :: Resources(t, paths) == Resources(s, paths);
    forall a, b | Live(t, a) && Live(t, b) && a != b
      ensures !ScopesClash(t, t.tasks[a].expectedPaths, t.tasks[b].expectedPaths)
    {
      if a == id || b == id {
        var other := if a == id then b else a;
        assert Live(s, other);
        DedupClashes(s, checked, s.tasks[other].expectedPaths);
        ClashSymmetric(s, task.expectedPaths, s.tasks[other].expectedPaths);
        assert !ScopesClash(s, task.expectedPaths, s.tasks[other].expectedPaths);
      } else {
        assert Live(s, a) && Live(s, b);
      }
    }
  }

  lemma ClaimKeeps(s: State, id: TaskId, sha: Sha, scope: Option<seq<string>>, deps: Option<seq<TaskId>>,
                   priority: Option<int>, lease: Lease)
    requires LeasesDisjoint(s)
    ensures var o := ClaimTask(s, id, sha, scope, deps, priority, lease); o.Some? ==> LeasesDisjoint(o.value)
  {
    var o := ClaimTask(s, id, sha, scope, deps, priority, lease);
    if o.Some? {
      var task := if id in s.tasks then s.tasks[id]
                  else NewTask(s, id, OrElse(priority, 0), sha, OrElse(scope, []), Dedup(OrElse(deps, [])));
      GrantKeeps(s, o.value, id, o.value.tasks[id], OrElse(scope, task.expectedPaths));
    }
  }

  lemma ExtendKeeps(s: State, id: TaskId, paths: seq<string>, token: nat)
    requires LeasesDisjoint(s)
    ensures var o := ExtendTask(s, id, paths, token); o.Some? ==> LeasesDisjoint(o.value)
  {
    var o := ExtendTask(s, id, paths, token);
    if o.Some? {
      GrantKeeps(s, o.value, id, o.value.tasks[id], Dedup(s.tasks[id].expectedPaths + paths));
    }
  }

  lemma ReopenKeeps(s: State, id: TaskId, batch: BatchId, scope: Option<seq<string>>, lease: Lease, p: Policy)
    requires LeasesDisjoint(s)
    ensures var o := ReopenTask(s, id, batch, scope, lease, p); o.Some? ==> LeasesDisjoint(o.value)
  {
    var o := ReopenTask(s, id, batch, scope, lease, p);
    if o.Some? {
      GrantKeeps(s, o.value, id, o.value.tasks[id], OrElse(scope, s.tasks[id].expectedPaths));
    }
  }

  // ---- Every step ----

  predicate Grants(step: Step) {
    step.SClaim? || step.SExtend? || step.SReopen?
  }

  predicate EditsTasks(step: Step) {
    step.SStart? || step.SFinishDryRun? || step.SPrepare? || step.SFailIntegration? || step.SRecoverRunning?
    || step.SPublish? || step.SCompleteChanges? || step.SSync? || step.SSyncLanded? || step.SClose? || step.SMarkMerged?
    || step.SRejectRefresh? || step.SFinishRefresh?
  }

  ghost predicate Edited(s: State, t: State) {
    t.serialized == s.serialized && t.now == s.now
    && (t.tasks == s.tasks || exists ids, e :: t.tasks == EditTasks(s.tasks, ids, e, s.now))
  }

  lemma EditedShrinks(s: State, t: State)
    requires Edited(s, t)
    ensures LeasesOnlyShrink(s, t)
  {
    if t.tasks != s.tasks {
      var ids, e :| t.tasks == EditTasks(s.tasks, ids, e, s.now);
      EditsShrink(s, t, ids, e);
    }
  }

  lemma IntegrationEdits(s: State, step: Step)
    requires step.SStart? || step.SFinishDryRun? || step.SPrepare? || step.SFailIntegration?
    ensures Apply(s, step).Some? ==> Edited(s, Apply(s, step).value)
  {
  }

  lemma SyncEdits(s: State, id: BatchId, cfg: Config, pr: PullRequest, action: SyncAction)
    requires Held(s, id)
    ensures CommitSync(s, id, cfg, pr, action).Some? ==> Edited(s, CommitSync(s, id, cfg, pr, action).value)
  {
  }

  lemma BatchEdits(s: State, step: Step)
    requires EditsTasks(step) && !step.SRecoverRunning?
    ensures Apply(s, step).Some? ==> Edited(s, Apply(s, step).value)
  {
    if step.SSync? {
      if Apply(s, step).Some? { SyncEdits(s, step.id, step.config, step.pr, step.action); }
    } else if step.SStart? || step.SFinishDryRun? || step.SPrepare? || step.SFailIntegration? {
      IntegrationEdits(s, step);
    }
  }

  predicate WorkerShrinks(step: Step) {
    step.SRegister? || step.SHeartbeat? || step.SRelease? || step.SCancel? || step.SRetry? || step.SSubmit?
  }

  predicate Revises(step: Step) {
    step.SFinishRevision? || step.SRecoverRevision? || step.SPrune? || step.STick?
  }

  lemma WorkerStepsShrink(s: State, step: Step)
    requires WorkerShrinks(step)
    ensures Apply(s, step).Some? ==> LeasesOnlyShrink(s, Apply(s, step).value)
  {
  }

  lemma RevisingStepsShrink(s: State, step: Step)
    requires Revises(step)
    ensures Apply(s, step).Some? ==> LeasesOnlyShrink(s, Apply(s, step).value)
  {
  }

  lemma TaskFreeSteps(s: State, step: Step)
    requires !Grants(step) && !EditsTasks(step) && !WorkerShrinks(step) && !Revises(step)
    ensures var o := Apply(s, step);
            o.Some? ==> o.value.tasks == s.tasks && o.value.now == s.now && o.value.serialized == s.serialized
  {
  }

  lemma GrantStepKeeps(s: State, step: Step)
    requires LeasesDisjoint(s) && Grants(step)
    ensures Apply(s, step).Some? ==> LeasesDisjoint(Apply(s, step).value)
  {
    match step
    case SClaim(t, sha, scope, depends, urgency, lease) => ClaimKeeps(s, t, sha, scope, depends, urgency, lease);
    case SExtend(t, paths, token) => ExtendKeeps(s, t, paths, token);
    case SReopen(t, id, scope, lease, policy) => ReopenKeeps(s, t, id, scope, lease, policy);
  }

  lemma ShrinkingStep(s: State, step: Step)
    requires !Grants(step)
    ensures Apply(s, step).Some? ==> LeasesOnlyShrink(s, Apply(s, step).value)
  {
    if step.SRecoverRunning? { RecoveryShrinks(s, step.ids); }
    else if EditsTasks(step) {
      BatchEdits(s, step);
      if Apply(s, step).Some? { EditedShrinks(s, Apply(s, step).value); }
    }
    else if WorkerShrinks(step) { WorkerStepsShrink(s, step); }
    else if Revises(step) { RevisingStepsShrink(s, step); }
    else { TaskFreeSteps(s, step); }
  }

  lemma StepKeepsLeases(s: State, step: Step)
    requires LeasesDisjoint(s)
    ensures Apply(s, step).Some? ==> LeasesDisjoint(Apply(s, step).value)
  {
    if Grants(step) {
      GrantStepKeeps(s, step);
    } else {
      ShrinkingStep(s, step);
      if Apply(s, step).Some? { ShrinkKeeps(s, Apply(s, step).value); }
    }
  }

  lemma RunStepKeepsLeases(serialized: seq<string>, states: seq<State>, steps: seq<Step>, i: nat)
    requires Run(serialized, states, steps) && i < |steps| && LeasesDisjoint(states[i])
    ensures LeasesDisjoint(states[i + 1])
  {
    StepOf(serialized, states, steps, i);
    StepKeepsLeases(states[i], steps[i]);
  }

  lemma InitiallyNoLeases(serialized: seq<string>)
    ensures LeasesDisjoint(Initial(serialized))
  {
  }

  ghost predicate KeepsLeases(s: State, t: State) {
    LeasesDisjoint(s) ==> LeasesDisjoint(t)
  }

  lemma {:induction false} LeasesStayDisjoint(states: seq<State>, k: nat)
    requires k < |states| && LeasesDisjoint(states[0])
    requires forall i | 0 <= i < |states| - 1 :: KeepsLeases(states[i], states[i + 1])
    ensures LeasesDisjoint(states[k])
  {
    if k > 0 {
      LeasesStayDisjoint(states, k - 1);
      assert KeepsLeases(states[k - 1], states[k - 1 + 1]);
    }
  }

  /** The theorem: live leases have disjoint scopes in every state of every run, with no proviso. */
  lemma RunKeepsLeasesDisjoint(serialized: seq<string>, states: seq<State>, steps: seq<Step>, k: nat)
    requires Run(serialized, states, steps) && k < |states|
    ensures LeasesDisjoint(states[k])
  {
    InitiallyNoLeases(serialized);
    forall i | 0 <= i < |states| - 1 ensures KeepsLeases(states[i], states[i + 1]) {
      if LeasesDisjoint(states[i]) { RunStepKeepsLeases(serialized, states, steps, i); }
    }
    LeasesStayDisjoint(states, k);
  }

  /** The task has a lease, and it has not run out. */
  predicate Unexpired(s: State, t: TaskId) {
    t in s.tasks && s.tasks[t].lease.Some? && s.now < s.tasks[t].lease.value.expiresAt
  }

  // ---- A live lease is its holder's ----

  /** The caller shows the lease's token, or an operator forces the operation. */
  predicate Entitled(step: Step, token: nat) {
    match step
    case SHeartbeat(_, shown, _) => shown == token
    case SExtend(_, _, shown) => shown == token
    case SSubmit(_, shown, _, _) => shown == token
    case SRelease(_, key, force) => force || key == Some(token)
    case SCancel(_, key, force) => force || key == Some(token)
    case SRetry(_, key) => key == Some(token)
    case _ => false
  }

  lemma ClaimRespects(s: State, step: Step, k: TaskId)
    requires (step.SRegister? || step.SClaim?) && Apply(s, step).Some?
    requires Unexpired(s, k)
    ensures k in Apply(s, step).value.tasks && Apply(s, step).value.tasks[k] == s.tasks[k]
  {
  }

  lemma HolderRespects(s: State, step: Step, k: TaskId)
    requires (step.SHeartbeat? || step.SExtend? || step.SSubmit?) && Apply(s, step).Some?
    requires Unexpired(s, k)
    ensures k in Apply(s, step).value.tasks
    ensures Apply(s, step).value.tasks[k] != s.tasks[k] ==> step.t == k && Entitled(step, s.tasks[k].lease.value.token)
  {
  }

  lemma LeaverRespects(s: State, step: Step, k: TaskId)
    requires (step.SRelease? || step.SCancel? || step.SRetry?) && Apply(s, step).Some?
    requires Unexpired(s, k)
    ensures k in Apply(s, step).value.tasks
    ensures Apply(s, step).value.tasks[k] != s.tasks[k] ==> step.t == k && Entitled(step, s.tasks[k].lease.value.token)
  {
  }

  /** No worker's operation changes a task under an unexpired lease without the lease's token, unless an operator
      forces it. */
  lemma LeaseIsRespected(s: State, step: Step, k: TaskId)
    requires WorkerStep(step) && Apply(s, step).Some?
    requires Unexpired(s, k)
    ensures k in Apply(s, step).value.tasks
    ensures Apply(s, step).value.tasks[k] != s.tasks[k] ==> step.t == k && Entitled(step, s.tasks[k].lease.value.token)
  {
    if step.SRegister? || step.SClaim? { ClaimRespects(s, step, k); }
    else if step.SHeartbeat? || step.SExtend? || step.SSubmit? { HolderRespects(s, step, k); }
    else { LeaverRespects(s, step, k); }
  }

  /** And an expired lease entitles to nothing: its token extends, submits and keeps alive no more. */
  lemma ExpiredLeaseIsVoid(s: State, step: Step)
    requires step.SHeartbeat? || step.SExtend? || step.SSubmit?
    requires step.t in s.tasks && (s.tasks[step.t].lease.None? || s.tasks[step.t].lease.value.expiresAt <= s.now)
    ensures Apply(s, step).None?
  {
  }

  /** What it means on paths: no tracked path is in the declared scope of two live leases. */
  lemma LiveLeasesShareNoPath(serialized: seq<string>, states: seq<State>, steps: seq<Step>, k: nat,
                              a: TaskId, b: TaskId, path: string)
    requires Run(serialized, states, steps) && k < |states|
    requires a != b && Unexpired(states[k], a) && Unexpired(states[k], b)
    requires Patterns.TrackedPath(Patterns.Normalize(path))
    ensures forall i, j | 0 <= i < |states[k].tasks[a].expectedPaths| && 0 <= j < |states[k].tasks[b].expectedPaths| ::
              var p, q := states[k].tasks[a].expectedPaths[i], states[k].tasks[b].expectedPaths[j];
              '\\' !in p && '\\' !in q ==> !(Patterns.MatchesPattern(path, p) && Patterns.MatchesPattern(path, q))
  {
    RunKeepsLeasesDisjoint(serialized, states, steps, k);
    var left, right := states[k].tasks[a].expectedPaths, states[k].tasks[b].expectedPaths;
    assert !Patterns.SetsMayOverlap(left, right);
    forall i, j | 0 <= i < |left| && 0 <= j < |right| && '\\' !in left[i] && '\\' !in right[j]
      ensures !(Patterns.MatchesPattern(path, left[i]) && Patterns.MatchesPattern(path, right[j]))
    {
      SharedPathOverlaps(path, left, right, i, j);
    }
  }

  lemma SharedPathOverlaps(path: string, left: seq<string>, right: seq<string>, i: nat, j: nat)
    requires i < |left| && j < |right| && '\\' !in left[i] && '\\' !in right[j]
    requires Patterns.TrackedPath(Patterns.Normalize(path))
    ensures Patterns.MatchesPattern(path, left[i]) && Patterns.MatchesPattern(path, right[j]) ==> Patterns.SetsMayOverlap(left, right)
  {
    if Patterns.MatchesPattern(path, left[i]) && Patterns.MatchesPattern(path, right[j]) {
      Patterns.SetOverlapSound(path, left, right, i, j);
    }
  }

  /** And no serialized pattern is touched by both. */
  lemma LiveLeasesShareNoSerializedPattern(serialized: seq<string>, states: seq<State>, steps: seq<Step>, k: nat,
                                           a: TaskId, b: TaskId, r: string)
    requires Run(serialized, states, steps) && k < |states| && r in states[k].serialized
    requires a != b && Unexpired(states[k], a) && Unexpired(states[k], b)
    ensures !(Patterns.SetsMayOverlap(states[k].tasks[a].expectedPaths, [r])
              && Patterns.SetsMayOverlap(states[k].tasks[b].expectedPaths, [r]))
  {
    RunKeepsLeasesDisjoint(serialized, states, steps, k);
    var s := states[k];
    var left, right := s.tasks[a].expectedPaths, s.tasks[b].expectedPaths;
    assert !ScopesClash(s, left, right);
    assert r in Resources(s, left) && r in Resources(s, right) ==> r in Resources(s, left) * Resources(s, right);
  }
}
