/**
 Choosing completed records to retire (`selectPrunable` in src/broker.ts).
 */
module Pruning {
  import opened Common
  import opened Records

  predicate PrunableTask(status: TaskStatus) {
    status == Merged || status == Cancelled
  }

  predicate PrunableBatch(status: BatchStatus) {
    status == BatchMerged || status == Closed || status == BatchFailed
  }

  function TaskRetiredAt(t: Task): Instant {
    if t.mergedAt.Some? then t.mergedAt.value else t.updatedAt
  }

  function BatchRetiredAt(b: Batch): Instant {
    if b.finishedAt.Some? then b.finishedAt.value else b.createdAt
  }

  function Completed(tasks: map<TaskId, Task>, cutoff: Instant): set<TaskId> {
    set id | id in tasks && PrunableTask(tasks[id].status) && TaskRetiredAt(tasks[id]) <= cutoff
  }

  /** Completed tasks that some task which is staying still depends on. */
  function NeededBy(tasks: map<TaskId, Task>, completed: set<TaskId>): set<TaskId> {
    set id, d | id in tasks && id !in completed && d in tasks[id].dependsOn && d in completed :: d
  }

  function Retirable(tasks: map<TaskId, Task>, cutoff: Instant): set<TaskId> {
    var completed := Completed(tasks, cutoff);
    completed - NeededBy(tasks, completed)
  }

  function PrunedBatches(tasks: map<TaskId, Task>, batches: map<BatchId, Batch>, cutoff: Instant): set<BatchId> {
    var retirable := Retirable(tasks, cutoff);
    set id | id in batches && PrunableBatch(batches[id].status) && BatchRetiredAt(batches[id]) <= cutoff
             && (forall t | t in batches[id].taskIds :: t in retirable || t !in tasks)
  }

  function PrunedTasks(tasks: map<TaskId, Task>, batches: map<BatchId, Batch>, cutoff: Instant): set<TaskId> {
    var prunedBatches := PrunedBatches(tasks, batches, cutoff);
    set id | id in Retirable(tasks, cutoff)
             && (tasks[id].batchId.None? || tasks[id].batchId.value in prunedBatches || tasks[id].batchId.value !in batches)
  }

  // ---- What goes, on the records' own fields ----

  /** The work is over, landed or called off, and has been for long enough. */
  predicate LongOver(t: Task, cutoff: Instant) {
    (t.status == Merged || t.status == Cancelled) && (if t.mergedAt.Some? then t.mergedAt.value else t.updatedAt) <= cutoff
  }

  predicate LongClosed(b: Batch, cutoff: Instant) {
    (b.status == BatchMerged || b.status == Closed || b.status == BatchFailed)
    && (if b.finishedAt.Some? then b.finishedAt.value else b.createdAt) <= cutoff
  }

  /** Nothing that is still going on waits for this task. */
  ghost predicate Unneeded(tasks: map<TaskId, Task>, cutoff: Instant, t: TaskId) {
    forall u | u in tasks && t in tasks[u].dependsOn :: LongOver(tasks[u], cutoff)
  }

  /** A batch goes exactly if it is long closed and every task it lists is long over and unneeded, or gone. */
  lemma BatchGoesExactly(tasks: map<TaskId, Task>, batches: map<BatchId, Batch>, cutoff: Instant, id: BatchId)
    ensures id in PrunedBatches(tasks, batches, cutoff)
            <==> id in batches && LongClosed(batches[id], cutoff)
                 && forall t | t in batches[id].taskIds && t in tasks :: LongOver(tasks[t], cutoff) && Unneeded(tasks, cutoff, t)
  {
    forall t ensures t in Retirable(tasks, cutoff) <==> t in tasks && LongOver(tasks[t], cutoff) && Unneeded(tasks, cutoff, t) {
      RetirableExactly(tasks, cutoff, t);
    }
  }

  lemma RetirableExactly(tasks: map<TaskId, Task>, cutoff: Instant, t: TaskId)
    ensures t in Retirable(tasks, cutoff) <==> t in tasks && LongOver(tasks[t], cutoff) && Unneeded(tasks, cutoff, t)
  {
    var completed := Completed(tasks, cutoff);
    if t in completed && !Unneeded(tasks, cutoff, t) {
      var u :| u in tasks && t in tasks[u].dependsOn && !LongOver(tasks[u], cutoff);
      assert t in NeededBy(tasks, completed);
    }
  }

  /** A task goes exactly if it is long over and unneeded, and no batch that stays is named by it. */
  lemma TaskGoesExactly(tasks: map<TaskId, Task>, batches: map<BatchId, Batch>, cutoff: Instant, t: TaskId)
    ensures t in PrunedTasks(tasks, batches, cutoff)
            <==> t in tasks && LongOver(tasks[t], cutoff) && Unneeded(tasks, cutoff, t)
                 && (tasks[t].batchId.Some? && tasks[t].batchId.value in batches ==>
                       tasks[t].batchId.value in PrunedBatches(tasks, batches, cutoff))
  {
    RetirableExactly(tasks, cutoff, t);
  }

  /** A task that stays, and is listed by the batch it names, keeps that batch. */
  lemma RetainedTaskKeepsItsBatch(tasks: map<TaskId, Task>, batches: map<BatchId, Batch>, cutoff: Instant, t: TaskId)
    requires t in tasks && tasks[t].batchId.Some?
    requires tasks[t].batchId.value in batches && t in batches[tasks[t].batchId.value].taskIds
    requires t !in PrunedTasks(tasks, batches, cutoff)
    ensures tasks[t].batchId.value !in PrunedBatches(tasks, batches, cutoff)
  {
    var b := tasks[t].batchId.value;
    assert b in PrunedBatches(tasks, batches, cutoff) ==> t in Retirable(tasks, cutoff);
  }

  /** No task that stays loses a dependency it could look up before. */
  lemma RetainedTaskKeepsItsDependencies(
    tasks: map<TaskId, Task>, batches: map<BatchId, Batch>, cutoff: Instant, t: TaskId, d: TaskId)
    requires t in tasks && t !in Completed(tasks, cutoff) && d in tasks[t].dependsOn
    ensures d !in PrunedTasks(tasks, batches, cutoff)
  {
    var completed := Completed(tasks, cutoff);
    assert d in completed ==> d in NeededBy(tasks, completed);
  }

  /** `selectPrunable` as it runs: dependencies of staying tasks are struck from the candidates, then
      batches are chosen by what is left, then tasks by the batches. */
  method SelectPrunable(tasks: map<TaskId, Task>, batches: map<BatchId, Batch>, cutoff: Instant)
    returns (prunedTasks: set<TaskId>, prunedBatches: set<BatchId>, retained: set<TaskId>)
    ensures prunedTasks == PrunedTasks(tasks, batches, cutoff)
    ensures prunedBatches == PrunedBatches(tasks, batches, cutoff)
    ensures retained == NeededBy(tasks, Completed(tasks, cutoff))
  {
    var candidates := Completed(tasks, cutoff);
    retained := {};
    var left := tasks.Keys;
    while left != {}
      invariant left <= tasks.Keys
      invariant retained == set id, d | id in tasks && id !in left && id !in candidates && d in tasks[id].dependsOn && d in candidates :: d
      decreases left
    {
      var id :| id in left;
      ghost var before := retained;
      left := left - {id};
      if id !in candidates {
        var deps := tasks[id].dependsOn;
        for i := 0 to |deps|
          invariant retained == before + set d | d in deps[..i] && d in candidates
        {
          assert deps[..i + 1] == deps[..i] + [deps[i]];
          if deps[i] in candidates { retained := retained + {deps[i]}; }
        }
        assert deps[..|deps|] == deps;
      }
    }
    candidates := candidates - retained;
    prunedBatches := {};
    var remaining := batches.Keys;
    while remaining != {}
      invariant remaining <= batches.Keys
      invariant prunedBatches == set id | id in batches && id !in remaining && id in PrunedBatches(tasks, batches, cutoff)
      decreases remaining
    {
      var id :| id in remaining;
      remaining := remaining - {id};
      if PrunableBatch(batches[id].status) && BatchRetiredAt(batches[id]) <= cutoff {
        var whole := AllGoing(tasks, batches[id].taskIds, candidates);
        if whole { prunedBatches := prunedBatches + {id}; }
      }
    }
    prunedTasks := set id | id in candidates
                            && (tasks[id].batchId.None? || tasks[id].batchId.value in prunedBatches
                                || tasks[id].batchId.value !in batches);
  }

  method AllGoing(tasks: map<TaskId, Task>, ids: seq<TaskId>, candidates: set<TaskId>) returns (all: bool)
    ensures all <==> forall t | t in ids :: t in candidates || t !in tasks
  {
    for i := 0 to |ids|
      invariant forall t | t in ids[..i] :: t in candidates || t !in tasks
    {
      if ids[i] !in candidates && ids[i] in tasks { return false; }
    }
    return true;
  }
}
