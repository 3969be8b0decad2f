/**
 Two runs that break what the other modules prove, and so show that their provisos are needed. Each
 is a complete run from the initial state.

 In the first, a batch's pull request is closed, its task is retried and goes into a replacement
 batch; a later sync of the closed batch sees another head and fails the task under the running
 replacement. In the second, an integration fails after its batch was prepared while a publisher
 holds the batch lock, and the publisher goes on to publish a record that says the batch failed.
 */
module Counterexamples {
  import opened Common
  import opened Records
  import opened CandidateLifecycle
  import opened Coordinate
  import opened BatchRecords
  import opened Coherence
  import opened CurrentViews

  const OPEN_POLICY := Policy(false, 0, [], [], [])
  const CONFIG := Config(OPEN_POLICY, false)
  const LEASE := Lease(7, 0, 10)

  function TheTask(status: TaskStatus, lease: Option<Lease>, batch: Option<BatchId>): Task {
    Task(1, status, 0, 0, ["a"], [], Receipt([5], ["a"], Some(0)), lease, batch, 0, 0, None)
  }

  function Assembling(): Batch {
    Started([1], 0, 0, true, false, 0)
  }

  function Branched(): Batch {
    Assembling().(branchName := Some(3), headSha := Some(9))
  }

  /** The in-memory record of the integration, which also notes when assembly finished. */
  function InMemory(): Batch {
    Branched().(finishedAt := Some(0))
  }

  function Published1(): Batch {
    AsPublished(InMemory().(status := Prepared), Some(44))
  }

  function ClosedPull(head: Sha): PullRequest {
    PullRequest(PullRequestClosed, Some(head), Some(0), Some(0), None, false, false, [])
  }

  function Closed1(): Batch {
    AsClosed(Published1(), CandidateState.Abandoned, 0)
  }

  function Failed1(): Batch {
    AsViolated(Closed1(), 0).(refreshRequired := false, refreshClose := None)
  }

  function At(task: Task, batches: map<BatchId, Batch>, views: map<BatchId, Batch>, integration: Integration): State {
    State(map[1 := task], batches, views, integration, [], 0)
  }

  lemma OneTaskEdited(task: Task, e: Edit)
    ensures EditTasks(map[1 := task], [1], e, 0) == map[1 := Applied(e, 1, task, 0)]
  {
  }

  lemma Overwritten<T>(key: nat, x: T, y: T)
    ensures map[key := x][key := y] == map[key := y]
  {
  }

  lemma OneTaskPlanned(task: Task)
    requires task.id == 1
    ensures seq(|[task]|, i requires 0 <= i < |[task]| => [task][i].id) == [1]
  {
  }

  // ---- What a step applies ----

  lemma Syncs(s: State, id: BatchId, cfg: Config, pr: PullRequest, action: SyncAction)
    requires Held(s, id) && SyncGuard(s.views[id]) && SyncDecided(s.views[id], cfg, pr, false, false, action)
    ensures Apply(s, SSync(id, cfg, pr, false, false, action)) == CommitSync(s, id, cfg, pr, action)
  {
  }

  lemma Publishes(s: State, id: BatchId, url: Option<nat>)
    ensures Apply(s, SPublish(id, url)) == PublishBatch(s, id, url)
  {
  }

  lemma Starts(s: State, id: BatchId, plan: seq<Task>)
    ensures Apply(s, SStart(id, plan, 0, 0, true, false)) == StartBatch(s, id, plan, 0, 0, true, false)
  {
  }

  lemma Assembles(s: State, branch: nat, sha: Sha, p: Policy)
    ensures Apply(s, SRecordBranch(branch, sha, p)) == RecordBranch(s, branch, sha, p)
    ensures Apply(s, SPrepare) == PrepareBatch(s)
  {
  }

  lemma Locks(s: State, id: BatchId)
    ensures Apply(s, STakeIntegration) == TakeIntegrationLock(s) && Apply(s, SDropIntegration) == DropIntegrationLock(s)
    ensures Apply(s, SCheckOutstanding(false, false)) == CheckOutstanding(s, false, false)
    ensures Apply(s, STakeBatch(id)) == TakeBatchLock(s, id)
  {
  }

  lemma Works(s: State, t: TaskId, receipt: Receipt)
    ensures Apply(s, SRetry(t, None)) == RetryTask(s, t, None)
    ensures Apply(s, SSubmit(t, 7, receipt, false)) == SubmitTask(s, t, 7, receipt, false)
    ensures Apply(s, SClaim(t, 0, Some(["a"]), None, None, LEASE)) == ClaimTask(s, t, 0, Some(["a"]), None, None, LEASE)
  {
  }

  // ---- The common beginning: a task in a prepared batch ----

  function Claimed0(): State {
    At(Task(1, Claimed, 0, 0, ["a"], [], Receipt([], [], None), Some(LEASE), None, 0, 0, None), map[], map[], Free)
  }

  function Waiting(): State {
    At(TheTask(Submitted, Some(LEASE), None), map[], map[], Free)
  }

  function Preparation(): seq<Step> {
    [SClaim(1, 0, Some(["a"]), None, None, LEASE),
     SSubmit(1, 7, Receipt([5], ["a"], None), false),
     STakeIntegration,
     SCheckOutstanding(false, false),
     SStart(1, [TheTask(Submitted, Some(LEASE), None)], 0, 0, true, false),
     SRecordBranch(3, 9, OPEN_POLICY),
     SPrepare]
  }

  function PreparationStates(): seq<State> {
    var submitted := TheTask(Submitted, Some(LEASE), None);
    var integrating := TheTask(Integrating, Some(LEASE), Some(1));
    [Initial([]),
     Claimed0(),
     Waiting(),
     At(submitted, map[], map[], Recovering),
     At(submitted, map[], map[], Cleared(false, false)),
     At(integrating, map[1 := Assembling()], map[], Building(1, Assembling(), false, false)),
     At(integrating, map[1 := Branched()], map[], Building(1, InMemory(), false, false)),
     PreparedState()]
  }

  function PreparedState(): State {
    var b := InMemory().(status := Prepared);
    At(TheTask(Batched, None, Some(1)), map[1 := b], map[], Building(1, b, false, false))
  }

  lemma ClaimAndSubmit()
    ensures Apply(Initial([]), Preparation()[0]) == Some(Claimed0())
    ensures Apply(Claimed0(), Preparation()[1]) == Some(Waiting())
  {
    Works(Initial([]), 1, Receipt([5], ["a"], None));
    Works(Claimed0(), 1, Receipt([5], ["a"], None));
    Claims();
    Submits();
  }

  lemma Claims()
    ensures ClaimTask(Initial([]), 1, 0, Some(["a"]), None, None, LEASE) == Some(Claimed0())
  {
    NewTaskDeduped();
    SingletonDedup("a");
  }

  lemma SingletonDedup<T>(x: T)
    ensures Dedup([x]) == [x]
  {
    assert [x][..0] == [];
  }

  lemma NewTaskDeduped()
    ensures Dedup<TaskId>([]) == [] && Dedup(Dedup<TaskId>([])) == []
  {
  }

  lemma Submits()
    ensures SubmitTask(Claimed0(), 1, 7, Receipt([5], ["a"], None), false) == Some(Waiting())
  {
    Overwritten(1, Claimed0().tasks[1], Waiting().tasks[1]);
  }

  lemma StartsFirst()
    ensures StartBatch(PreparationStates()[4], 1, [TheTask(Submitted, Some(LEASE), None)], 0, 0, true, false)
            == Some(PreparationStates()[5])
  {
    OneTaskPlanned(TheTask(Submitted, Some(LEASE), None));
    OneTaskEdited(TheTask(Submitted, Some(LEASE), None), EnterIntegration(1));
  }

  lemma Branches()
    ensures RecordBranch(PreparationStates()[5], 3, 9, OPEN_POLICY) == Some(PreparationStates()[6])
  {
    Overwritten(1, Assembling(), Branched());
  }

  lemma Prepares()
    ensures PrepareBatch(PreparationStates()[6]) == Some(PreparedState())
  {
    OneTaskEdited(TheTask(Integrating, Some(LEASE), Some(1)), ToBatched);
    Overwritten(1, Branched(), InMemory().(status := Prepared));
  }

  lemma PreparationStep(i: nat)
    requires 2 <= i < 7
    ensures Apply(PreparationStates()[i], Preparation()[i]) == Some(PreparationStates()[i + 1])
  {
    if i < 4 { Locks(PreparationStates()[i], 0); }
    else if i == 4 { Starts(PreparationStates()[4], 1, [TheTask(Submitted, Some(LEASE), None)]); StartsFirst(); }
    else { LastPreparation(i); }
  }

  lemma LastPreparation(i: nat)
    requires 5 <= i < 7
    ensures Apply(PreparationStates()[i], Preparation()[i]) == Some(PreparationStates()[i + 1])
  {
    Assembles(PreparationStates()[i], 3, 9, OPEN_POLICY);
    Branches();
    Prepares();
  }

  lemma PreparationRuns()
    ensures Run([], PreparationStates(), Preparation())
  {
    forall i | 0 <= i < 7 ensures Apply(PreparationStates()[i], Preparation()[i]) == Some(PreparationStates()[i + 1]) {
      if i < 2 { ClaimAndSubmit(); } else { PreparationStep(i); }
    }
  }

  // ---- First run: a closed batch takes its task back ----

  function Replacement(): Batch {
    Assembling()
  }

  function ReplacementSteps(): seq<Step> {
    [SDropIntegration,
     STakeBatch(1),
     SPublish(1, Some(44)),
     Rejection(),
     SRetry(1, None),
     STakeIntegration,
     SCheckOutstanding(false, false),
     SStart(2, [TheTask(Submitted, None, None)], 0, 0, true, false),
     LateSync()]
  }

  function Rejection(): Step {
    SSync(1, CONFIG, ClosedPull(9), false, false, CloseRejected)
  }

  function LateSync(): Step {
    SSync(1, CONFIG, ClosedPull(8), false, false, FailBatch)
  }

  function Unlocked0(): State {
    At(TheTask(Batched, None, Some(1)), map[1 := InMemory().(status := Prepared)], map[], Free)
  }

  function Publishing(): State {
    var p := InMemory().(status := Prepared);
    At(TheTask(Batched, None, Some(1)), map[1 := p], map[1 := p], Free)
  }

  function PublishedState(): State {
    At(TheTask(Published, None, Some(1)), map[1 := Published1()], map[1 := Published1()], Free)
  }

  function AfterClose(task: Task, integration: Integration): State {
    At(task, map[1 := Closed1()], map[1 := Closed1()], integration)
  }

  function Replaced(): State {
    At(TheTask(Integrating, None, Some(2)), map[1 := Closed1(), 2 := Replacement()], map[1 := Closed1()],
       Building(2, Replacement(), false, false))
  }

  function Broken(): State {
    At(TheTask(Failed, None, Some(2)), map[1 := Failed1(), 2 := Replacement()], map[1 := Failed1()],
       Building(2, Replacement(), false, false))
  }

  function ReplacementStates(): seq<State> {
    var submitted := TheTask(Submitted, None, None);
    [Unlocked0(),
     Publishing(),
     PublishedState(),
     AfterClose(TheTask(Failed, None, None), Free),
     AfterClose(submitted, Free),
     AfterClose(submitted, Recovering),
     AfterClose(submitted, Cleared(false, false)),
     Replaced(),
     Broken()]
  }

  lemma LocksChange()
    ensures DropIntegrationLock(PreparedState()) == Some(Unlocked0())
    ensures TakeBatchLock(Unlocked0(), 1) == Some(Publishing())
  {
  }

  lemma PublisherPublishes()
    ensures PublishBatch(Publishing(), 1, Some(44)) == Some(PublishedState())
  {
    OneTaskEdited(TheTask(Batched, None, Some(1)), ToPublished);
    Overwritten(1, InMemory().(status := Prepared), Published1());
  }

  lemma ClosedPullIsRejected()
    ensures SyncGuard(Published1()) && SyncDecided(Published1(), CONFIG, ClosedPull(9), false, false, CloseRejected)
  {
  }

  lemma PublishedCloses()
    ensures CloseLocked(PublishedState(), 1, false, true, true, false) == Some(AfterClose(TheTask(Failed, None, None), Free))
  {
    OneTaskEdited(TheTask(Published, None, Some(1)), Pause);
    Overwritten(1, Published1(), Closed1());
  }

  lemma SyncCloses()
    ensures Apply(PublishedState(), Rejection()) == Some(AfterClose(TheTask(Failed, None, None), Free))
  {
    ClosedPullIsRejected();
    Syncs(PublishedState(), 1, CONFIG, ClosedPull(9), CloseRejected);
    PublishedCloses();
  }

  lemma Retried()
    ensures RetryTask(AfterClose(TheTask(Failed, None, None), Free), 1, None)
            == Some(AfterClose(TheTask(Submitted, None, None), Free))
  {
    Overwritten(1, TheTask(Failed, None, None), TheTask(Submitted, None, None));
  }

  lemma Replanned()
    ensures var t := TheTask(Submitted, None, None);
            && TakeIntegrationLock(AfterClose(t, Free)) == Some(AfterClose(t, Recovering))
            && CheckOutstanding(AfterClose(t, Recovering), false, false) == Some(AfterClose(t, Cleared(false, false)))
  {
  }

  lemma ReplacementStarts()
    ensures var t := TheTask(Submitted, None, None);
            StartBatch(AfterClose(t, Cleared(false, false)), 2, [t], 0, 0, true, false) == Some(Replaced())
  {
    OneTaskPlanned(TheTask(Submitted, None, None));
    OneTaskEdited(TheTask(Submitted, None, None), EnterIntegration(2));
    assert map[1 := Closed1()][2 := Replacement()] == map[1 := Closed1(), 2 := Replacement()];
  }

  lemma MovedPullFails()
    ensures SyncGuard(Closed1()) && SyncDecided(Closed1(), CONFIG, ClosedPull(8), false, false, FailBatch)
  {
  }

  lemma ClosedFails()
    ensures CommitSync(Replaced(), 1, CONFIG, ClosedPull(8), FailBatch) == Some(Broken())
  {
    OneTaskEdited(TheTask(Integrating, None, Some(2)), ToFailed);
    Overwritten(1, Closed1(), Failed1());
    assert map[1 := Closed1(), 2 := Replacement()][1 := Failed1()] == map[1 := Failed1(), 2 := Replacement()];
  }

  lemma SyncFailsClosedBatch()
    ensures Apply(Replaced(), LateSync()) == Some(Broken())
  {
    MovedPullFails();
    Syncs(Replaced(), 1, CONFIG, ClosedPull(8), FailBatch);
    ClosedFails();
  }

  lemma EarlyStep(i: nat)
    requires 0 < i < 3
    ensures Apply(ReplacementStates()[i - 1], ReplacementSteps()[i]) == Some(ReplacementStates()[i])
  {
    if i == 1 {
      Locks(Unlocked0(), 1);
      LocksChange();
    } else {
      Publishes(Publishing(), 1, Some(44));
      PublisherPublishes();
    }
  }

  lemma MiddleStep(i: nat)
    requires 3 <= i < 5
    ensures Apply(ReplacementStates()[i - 1], ReplacementSteps()[i]) == Some(ReplacementStates()[i])
  {
    if i == 3 {
      SyncCloses();
    } else {
      Works(AfterClose(TheTask(Failed, None, None), Free), 1, Receipt([], [], None));
      Retried();
    }
  }

  lemma LateStep(i: nat)
    requires 5 <= i < 9
    ensures Apply(ReplacementStates()[i - 1], ReplacementSteps()[i]) == Some(ReplacementStates()[i])
  {
    var t := TheTask(Submitted, None, None);
    match i
    case 5 => Locks(AfterClose(t, Free), 0); Replanned();
    case 6 => Locks(AfterClose(t, Recovering), 0); Replanned();
    case 7 => Starts(AfterClose(t, Cleared(false, false)), 2, [t]); ReplacementStarts();
    case 8 => SyncFailsClosedBatch();
  }

  function ReplacementRun(): (seq<State>, seq<Step>) {
    (PreparationStates() + ReplacementStates(), Preparation() + ReplacementSteps())
  }

  lemma ReplacementRuns()
    ensures Run([], ReplacementRun().0, ReplacementRun().1)
  {
    PreparationRuns();
    Locks(PreparedState(), 0);
    LocksChange();
    forall i | 0 < i < 9 ensures Apply(ReplacementStates()[i - 1], ReplacementSteps()[i]) == Some(ReplacementStates()[i]) {
      if i < 3 { EarlyStep(i); } else if i < 5 { MiddleStep(i); } else { LateStep(i); }
    }
    RunsJoin(PreparationStates(), Preparation(), ReplacementStates(), ReplacementSteps());
  }

  lemma EarlierStepsOrderly(i: nat)
    requires i < 15
    ensures Orderly(ReplacementRun().0[i], ReplacementRun().1[i])
  {
    var step := ReplacementRun().1[i];
    assert !step.SFinishRefresh? && !step.SCompleteChanges?;
    assert step.SSync? ==> step.action != FailBatch;
    assert step.SPublish? ==> i == 9;
    assert ReplacementRun().0[9] == ReplacementStates()[1];
  }

  lemma GoodBeforeTheLastSync()
    ensures Good(Replaced())
  {
    ReplacementRuns();
    var (all, steps) := ReplacementRun();
    forall i | 0 <= i < 15 ensures Orderly(all[i], steps[i]) { EarlierStepsOrderly(i); }
    RunPrefixGood(all, steps, 15);
    assert all[15] == ReplacementStates()[7];
  }

  lemma RunPrefixGood(states: seq<State>, steps: seq<Step>, k: nat)
    requires Run([], states, steps) && k < |states| && forall i | 0 <= i < k :: Orderly(states[i], steps[i])
    ensures Good(states[k])
  {
    RunKeepsCoherent([], states, steps, k);
  }

  /** Reconciling a closed batch again leaves a running batch with a failed task. */
  lemma ReconcilingAClosedBatchBreaksItsReplacement()
    ensures Run([], ReplacementRun().0, ReplacementRun().1)
    ensures ReplacementRun().0[15] == Replaced() && ReplacementRun().1[15] == LateSync() && ReplacementRun().0[16] == Broken()
    ensures Good(Replaced()) && !Orderly(Replaced(), LateSync())
    ensures Apply(Replaced(), LateSync()) == Some(Broken()) && !Coherent(Broken())
  {
    ReplacementRuns();
    RunEnds();
    GoodBeforeTheLastSync();
    SyncFailsClosedBatch();
    BrokenIsIncoherent();
    BreaksOnlyUnorderly(Replaced(), LateSync(), Broken());
  }

  lemma RunEnds()
    ensures ReplacementRun().0[15] == Replaced() && ReplacementRun().1[15] == LateSync() && ReplacementRun().0[16] == Broken()
  {
  }

  lemma BreaksOnlyUnorderly(s: State, step: Step, t: State)
    requires Good(s) && Apply(s, step) == Some(t) && !Coherent(t)
    ensures !Orderly(s, step)
  {
    StepKeepsCoherentExactly(s, step);
  }

  lemma BrokenIsIncoherent()
    ensures !Coherent(Broken())
  {
    assert 1 in Broken().batches[2].taskIds;
    assert !BatchCoherent(Broken(), 2);
  }

  lemma RunsJoin(first: seq<State>, firstSteps: seq<Step>, second: seq<State>, secondSteps: seq<Step>)
    requires Run([], first, firstSteps) && |second| == |secondSteps| && second != []
    requires Apply(first[|first| - 1], secondSteps[0]) == Some(second[0])
    requires forall i | 0 < i < |second| :: Apply(second[i - 1], secondSteps[i]) == Some(second[i])
    ensures Run([], first + second, firstSteps + secondSteps)
  {
    var all, steps := first + second, firstSteps + secondSteps;
    forall i | 0 <= i < |steps| ensures Apply(all[i], steps[i]) == Some(all[i + 1]) {
      if i >= |firstSteps| {
        var j := i - |firstSteps|;
        assert steps[i] == secondSteps[j] && all[i + 1] == second[j];
        if j > 0 { assert all[i] == second[j - 1]; }
      }
    }
  }

  // ---- Second run: a catch block under a publisher's feet ----

  function CatchSteps(): seq<Step> {
    [STakeBatch(1), SFailIntegration(None, 3), SPublish(1, Some(44))]
  }

  function CatchStates(): seq<State> {
    var p := InMemory().(status := Prepared);
    var failed := p.(status := BatchFailed, branchName := None);
    [At(TheTask(Batched, None, Some(1)), map[1 := p], map[1 := p], Building(1, p, false, false)),
     At(TheTask(Failed, None, None), map[1 := failed], map[1 := p], Free),
     At(TheTask(Published, None, None), map[1 := AsPublished(failed, Some(44))], map[1 := AsPublished(failed, Some(44))], Free)]
  }

  lemma CatchTakesLock()
    ensures Apply(PreparedState(), CatchSteps()[0]) == Some(CatchStates()[0])
  {
  }

  lemma CatchFails()
    ensures Apply(CatchStates()[0], CatchSteps()[1]) == Some(CatchStates()[1])
  {
    var p := InMemory().(status := Prepared);
    OneTaskEdited(TheTask(Batched, None, Some(1)), IntegrationFailed(None, false, 3));
    Overwritten(1, p, p.(status := BatchFailed, branchName := None));
  }

  lemma CatchIsPublishedOver()
    ensures Apply(CatchStates()[1], CatchSteps()[2]) == Some(CatchStates()[2])
  {
    var p := InMemory().(status := Prepared);
    var failed := p.(status := BatchFailed, branchName := None);
    OneTaskEdited(TheTask(Failed, None, None), ToPublished);
    Overwritten(1, failed, AsPublished(failed, Some(44)));
    Overwritten(1, p, AsPublished(failed, Some(44)));
  }

  /** A failed batch is published: its record has no branch, and its task names no batch. */
  lemma FailingAPreparedBatchRacesItsPublisher()
    ensures Run([], PreparationStates() + CatchStates(), Preparation() + CatchSteps())
    ensures !CatchOrderly(CatchStates()[0], CatchSteps()[1])
    ensures !ViewsCurrent(CatchStates()[1])
    ensures !Orderly(CatchStates()[1], CatchSteps()[2]) && !Coherent(CatchStates()[2])
  {
    PreparationRuns();
    CatchTakesLock();
    CatchFails();
    CatchIsPublishedOver();
    RunsJoin(PreparationStates(), Preparation(), CatchStates(), CatchSteps());
    assert !Current(CatchStates()[1].views[1], CatchStates()[1].batches[1]);
    assert !TaskCoherent(CatchStates()[2], 1);
    assert 1 in CatchStates()[1].batches[1].taskIds;
  }
}
