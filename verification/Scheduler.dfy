/**
 Choosing what goes into a batch (src/scheduler.ts): repeated passes over the submitted tasks in
 priority order, taking what is ready, fits the commit limit and collides with nothing taken.
 */
module Scheduler {
  import opened Common
  import opened Records
  import Patterns

  datatype Limits = Limits(
    maxTasks: int,
    maxCommits: int,
    allowPathOverlap: bool,
    requireDependencies: bool,
    serialized: seq<string>)

  /** The limits of one call: its own task limit can only lower the configured one. */
  function Capped(l: Limits, maxTasks: Option<int>): Limits {
    if maxTasks.Some? && maxTasks.value < l.maxTasks then l.(maxTasks := maxTasks.value) else l
  }

  datatype Reason =
    | NeverFits
    | CommitLimit
    | Conflict(chosen: TaskId)
    | MissingDependencies(ids: seq<TaskId>)
    | TaskLimit
    | UnknownTask
    | NotSubmitted(status: TaskStatus)

  datatype Rejection = Rejection(task: TaskId, reason: Reason)

  datatype Plan = Plan(selected: seq<Task>, rejected: seq<Rejection>, total: nat)

  /** The variables of the pass; `progress` is reset when a pass begins. */
  datatype Progress = Progress(selected: seq<Task>, rejected: seq<Rejection>, total: nat, progress: bool)

  // ---- Order ----

  /** The comparison, as "comes strictly before". An unknown submission time is the latest. */
  predicate Before(a: Task, b: Task) {
    a.priority > b.priority
    || (a.priority == b.priority && Earlier(a.receipt.submittedAt, b.receipt.submittedAt))
    || (a.priority == b.priority && a.receipt.submittedAt == b.receipt.submittedAt && a.id < b.id)
  }

  predicate Earlier(a: Option<Instant>, b: Option<Instant>) {
    a.Some? && (b.None? || a.value < b.value)
  }

  function Insert(t: Task, sorted: seq<Task>): seq<Task> {
    if sorted == [] || Before(t, sorted[0]) then [t] + sorted else [sorted[0]] + Insert(t, sorted[1..])
  }

  function Sort(ts: seq<Task>): seq<Task> {
    if ts == [] then [] else Insert(ts[|ts| - 1], Sort(ts[..|ts| - 1]))
  }

  function Ids(ts: seq<Task>): (r: seq<TaskId>)
    ensures |r| == |ts| && forall i | 0 <= i < |ts| :: r[i] == ts[i].id
  {
    seq(|ts|, i requires 0 <= i < |ts| => ts[i].id)
  }

  function RejectedIds(rs: seq<Rejection>): (r: seq<TaskId>)
    ensures |r| == |rs| && forall i | 0 <= i < |rs| :: r[i] == rs[i].task
  {
    seq(|rs|, i requires 0 <= i < |rs| => rs[i].task)
  }

  predicate Wanted(t: Task, requested: Option<set<TaskId>>) {
    t.status == Submitted && (requested.Some? ==> t.id in requested.value)
  }

  /** The submitted tasks, in the order the records are stored in. */
  function Filtered(tasks: map<TaskId, Task>, order: seq<TaskId>, requested: Option<set<TaskId>>): seq<Task>
    requires forall id | id in order :: id in tasks
  {
    if order == [] then []
    else
      var rest := Filtered(tasks, order[..|order| - 1], requested);
      var t := tasks[order[|order| - 1]];
      if Wanted(t, requested) then rest + [t] else rest
  }

  function Candidates(tasks: map<TaskId, Task>, order: seq<TaskId>, requested: Option<set<TaskId>>): seq<Task>
    requires forall id | id in order :: id in tasks
  {
    Sort(Filtered(tasks, order, requested))
  }

  // ---- One task ----

  predicate MergedTask(tasks: map<TaskId, Task>, id: TaskId) {
    id in tasks && tasks[id].status == Merged
  }

  predicate Ready(tasks: map<TaskId, Task>, l: Limits, t: Task, selected: seq<Task>) {
    l.requireDependencies ==> forall d | d in t.dependsOn :: MergedTask(tasks, d) || d in Ids(selected)
  }

  function Normalized(paths: seq<string>): (r: seq<string>)
    ensures |r| == |paths|
  {
    seq(|paths|, i requires 0 <= i < |paths| => Patterns.Normalize(paths[i]))
  }

  /** The first path of `left` that is also in `right`; an empty one does not count as found. */
  function FirstShared(left: seq<string>, right: seq<string>): Option<string> {
    if left == [] then None else if left[0] in right then Some(left[0]) else FirstShared(left[1..], right)
  }

  predicate PathsOverlap(left: seq<string>, right: seq<string>) {
    var shared := FirstShared(Normalized(left), Normalized(right));
    shared.Some? && shared.value != ""
  }

  predicate Touches(paths: seq<string>, pattern: string) {
    exists i | 0 <= i < |paths| :: Patterns.MatchesPattern(paths[i], pattern)
  }

  predicate Collides(l: Limits, t: Task, chosen: Task) {
    || (!l.allowPathOverlap && PathsOverlap(t.receipt.actualPaths, chosen.receipt.actualPaths))
    || exists k | 0 <= k < |l.serialized| ::
         Touches(t.receipt.actualPaths, l.serialized[k]) && Touches(chosen.receipt.actualPaths, l.serialized[k])
  }

  function FirstCollision(l: Limits, t: Task, selected: seq<Task>): (r: Option<nat>)
    ensures r.Some? ==> r.value < |selected| && Collides(l, t, selected[r.value])
    ensures r.None? ==> forall i | 0 <= i < |selected| :: !Collides(l, t, selected[i])
  {
    if selected == [] then None
    else if Collides(l, t, selected[0]) then Some(0)
    else
      var rest := FirstCollision(l, t, selected[1..]);
      if rest.Some? then Some(rest.value + 1) else None
  }

  predicate Placed(p: Progress, id: TaskId) {
    id in Ids(p.selected) || id in RejectedIds(p.rejected)
  }

  /** The body of the inner loop. */
  function Consider(tasks: map<TaskId, Task>, l: Limits, p: Progress, t: Task): Progress {
    if Placed(p, t.id) || !Ready(tasks, l, t, p.selected) then p
    else if p.total + |t.receipt.commits| > l.maxCommits then
      p.(rejected := p.rejected + [Rejection(t.id, if |t.receipt.commits| > l.maxCommits then NeverFits else CommitLimit)])
    else
      var collision := FirstCollision(l, t, p.selected);
      if collision.Some? then p.(rejected := p.rejected + [Rejection(t.id, Conflict(p.selected[collision.value].id))])
      else Progress(p.selected + [t], p.rejected, p.total + |t.receipt.commits|, true)
  }

  function Scan(tasks: map<TaskId, Task>, l: Limits, p: Progress, ts: seq<Task>): Progress
    decreases |ts|
  {
    if ts == [] || |p.selected| >= l.maxTasks then p
    else Scan(tasks, l, Consider(tasks, l, p, ts[0]), ts[1..])
  }

  lemma {:induction false} ScanGrows(tasks: map<TaskId, Task>, l: Limits, p: Progress, ts: seq<Task>)
    ensures var q := Scan(tasks, l, p, ts);
            p.selected <= q.selected && p.rejected <= q.rejected && p.total <= q.total && (p.progress ==> q.progress)
            && (q.progress && !p.progress ==> |q.selected| > |p.selected|)
            && (!q.progress ==> q.selected == p.selected && q.total == p.total)
    decreases |ts|
  {
    if ts != [] && |p.selected| < l.maxTasks { ScanGrows(tasks, l, Consider(tasks, l, p, ts[0]), ts[1..]); }
  }

  /** Passes until one takes nothing or the task limit is reached. */
  function Passes(tasks: map<TaskId, Task>, l: Limits, p: Progress, ts: seq<Task>): Progress
    decreases l.maxTasks - |p.selected|
  {
    if |p.selected| >= l.maxTasks then p
    else
      var q := Scan(tasks, l, p.(progress := false), ts);
      ScanGrows(tasks, l, p.(progress := false), ts);
      if q.progress then Passes(tasks, l, q, ts) else q
  }

  function Missing(tasks: map<TaskId, Task>, selected: seq<Task>, deps: seq<TaskId>): seq<TaskId> {
    if deps == [] then []
    else if !MergedTask(tasks, deps[0]) && deps[0] !in Ids(selected) then [deps[0]] + Missing(tasks, selected, deps[1..])
    else Missing(tasks, selected, deps[1..])
  }

  /** What is left over is waiting for a dependency or did not fit under the task limit. */
  function Leftover(tasks: map<TaskId, Task>, l: Limits, p: Progress, ts: seq<Task>): seq<Rejection> {
    if ts == [] then []
    else
      var missing := if l.requireDependencies then Missing(tasks, p.selected, ts[0].dependsOn) else [];
      (if Placed(p, ts[0].id) then []
       else [Rejection(ts[0].id, if missing != [] then MissingDependencies(missing) else TaskLimit)])
      + Leftover(tasks, l, p, ts[1..])
  }

  /** Requested identifiers that were never candidates. `ids` is the order they were asked for in. */
  function NotCandidates(tasks: map<TaskId, Task>, ids: seq<TaskId>): seq<Rejection> {
    if ids == [] then []
    else
      (if ids[0] !in tasks then [Rejection(ids[0], UnknownTask)]
       else if tasks[ids[0]].status != Submitted then [Rejection(ids[0], NotSubmitted(tasks[ids[0]].status))]
       else [])
      + NotCandidates(tasks, ids[1..])
  }

  function Empty(): Progress {
    Progress([], [], 0, true)
  }

  function Elements(ids: seq<TaskId>): set<TaskId> {
    set id | id in ids
  }

  lemma IdsAppend(ts: seq<Task>, t: Task, rs: seq<Rejection>, r: Rejection)
    ensures Elements(Ids(ts + [t])) == Elements(Ids(ts)) + {t.id} && Ids(ts + [t]) == Ids(ts) + [t.id]
    ensures Elements(RejectedIds(rs + [r])) == Elements(RejectedIds(rs)) + {r.task}
            && RejectedIds(rs + [r]) == RejectedIds(rs) + [r.task]
  {
    assert Ids(ts + [t]) == Ids(ts) + [t.id];
    assert RejectedIds(rs + [r]) == RejectedIds(rs) + [r.task];
  }

  /** `order` is the order tasks are stored in; `requested` the identifiers asked for, if any. */
  function ScheduleTasks(tasks: map<TaskId, Task>, order: seq<TaskId>, l: Limits, requested: Option<seq<TaskId>>): Plan
    requires forall id | id in order :: id in tasks
  {
    var wanted := if requested.Some? then Some(Elements(requested.value)) else None;
    var ts := Candidates(tasks, order, wanted);
    var p := Passes(tasks, l, Empty(), ts);
    var asked := if requested.Some? then NotCandidates(tasks, Dedup(requested.value)) else [];
    Plan(p.selected, p.rejected + Leftover(tasks, l, p, ts) + asked, p.total)
  }

  // ---- The loops ----

  lemma {:induction false} InsertAt(t: Task, s: seq<Task>, k: nat)
    requires k <= |s| && (forall i | 0 <= i < k :: !Before(t, s[i])) && (k < |s| ==> Before(t, s[k]))
    ensures Insert(t, s) == s[..k] + ([t] + s[k..])
    decreases k
  {
    if k > 0 {
      InsertAt(t, s[1..], k - 1);
      SplitFirst(s, t, k);
    }
  }

  lemma SplitFirst(s: seq<Task>, t: Task, k: nat)
    requires 0 < k <= |s|
    ensures [s[0]] + (s[1..][..k - 1] + ([t] + s[1..][k - 1..])) == s[..k] + ([t] + s[k..])
  {
    assert s[1..][..k - 1] == s[1..k] && s[1..][k - 1..] == s[k..];
  }

  method InsertTask(t: Task, sorted: seq<Task>) returns (r: seq<Task>)
    ensures r == Insert(t, sorted)
  {
    var k := 0;
    while k < |sorted| && !Before(t, sorted[k])
      invariant 0 <= k <= |sorted|
      invariant forall i | 0 <= i < k :: !Before(t, sorted[i])
    {
      k := k + 1;
    }
    InsertAt(t, sorted, k);
    r := sorted[..k] + ([t] + sorted[k..]);
  }

  /** `candidates.sort`, by insertion from the left; the order is total, so any sort gives this. */
  method SortTasks(ts: seq<Task>) returns (sorted: seq<Task>)
    ensures sorted == Sort(ts)
  {
    sorted := [];
    for i := 0 to |ts|
      invariant sorted == Sort(ts[..i])
    {
      assert ts[..i + 1][|ts[..i + 1]| - 1] == ts[i] && ts[..i + 1][..|ts[..i + 1]| - 1] == ts[..i];
      sorted := InsertTask(ts[i], sorted);
    }
    assert ts[..|ts|] == ts;
  }

  /** The two nested loops, with their flag and their early exit. */
  method Choose(tasks: map<TaskId, Task>, l: Limits, candidates: seq<Task>)
    returns (selected: seq<Task>, rejected: seq<Rejection>, total: nat)
    ensures var p := Passes(tasks, l, Empty(), candidates);
            selected == p.selected && rejected == p.rejected && total == p.total
  {
    selected, rejected, total := [], [], 0;
    var selectedIds: set<TaskId>, rejectedIds: set<TaskId> := {}, {};
    var madeProgress := true;
    while madeProgress && |selected| < l.maxTasks
      invariant selectedIds == Elements(Ids(selected)) && rejectedIds == Elements(RejectedIds(rejected))
      invariant var now := Progress(selected, rejected, total, madeProgress);
                Passes(tasks, l, Empty(), candidates) == if madeProgress then Passes(tasks, l, now, candidates) else now
      decreases madeProgress, l.maxTasks - |selected|
    {
      ghost var before := Progress(selected, rejected, total, false);
      madeProgress := false;
      var i := 0;
      while i < |candidates|
        invariant i <= |candidates|
        invariant selectedIds == Elements(Ids(selected)) && rejectedIds == Elements(RejectedIds(rejected))
        invariant Scan(tasks, l, Progress(selected, rejected, total, madeProgress), candidates[i..])
                  == Scan(tasks, l, before, candidates)
        invariant before.selected <= selected && (madeProgress <==> |selected| > |before.selected|)
        invariant |selected| < l.maxTasks
      {
        var task := candidates[i];
        ghost var p := Progress(selected, rejected, total, madeProgress);
        assert candidates[i..][0] == task && candidates[i..][1..] == candidates[i + 1..];
        i := i + 1;
        IdsAppend(selected, task, rejected, Rejection(task.id, if |task.receipt.commits| > l.maxCommits then NeverFits else CommitLimit));
        if task.id in selectedIds || task.id in rejectedIds { continue; }
        if !Ready(tasks, l, task, selected) { continue; }
        if total + |task.receipt.commits| > l.maxCommits {
          rejected := rejected + [Rejection(task.id, if |task.receipt.commits| > l.maxCommits then NeverFits else CommitLimit)];
          rejectedIds := rejectedIds + {task.id};
          continue;
        }
        var collision := FirstCollision(l, task, selected);
        if collision.Some? {
          IdsAppend(selected, task, rejected, Rejection(task.id, Conflict(selected[collision.value].id)));
          rejected := rejected + [Rejection(task.id, Conflict(selected[collision.value].id))];
          rejectedIds := rejectedIds + {task.id};
          continue;
        }
        selected := selected + [task];
        selectedIds := selectedIds + {task.id};
        total := total + |task.receipt.commits|;
        madeProgress := true;
        assert Consider(tasks, l, p, task) == Progress(selected, rejected, total, true);
        if |selected| >= l.maxTasks { break; }
      }
      assert Scan(tasks, l, before, candidates) == Progress(selected, rejected, total, madeProgress);
    }
  }

  lemma {:induction false} LeftoverSnoc(tasks: map<TaskId, Task>, l: Limits, p: Progress, ts: seq<Task>, t: Task)
    ensures Leftover(tasks, l, p, ts + [t])
            == Leftover(tasks, l, p, ts) + LeftoverOf(tasks, l, p.selected, t, Placed(p, t.id))
    decreases |ts|
  {
    if ts == [] {
      assert ts + [t] == [t] && [t][1..] == [];
    } else {
      assert (ts + [t])[1..] == ts[1..] + [t];
      LeftoverSnoc(tasks, l, p, ts[1..], t);
    }
  }

  /** What the loop says about one task. */
  function LeftoverOf(tasks: map<TaskId, Task>, l: Limits, selected: seq<Task>, t: Task, placed: bool): seq<Rejection> {
    var missing := if l.requireDependencies then Missing(tasks, selected, t.dependsOn) else [];
    if placed then [] else [Rejection(t.id, if missing != [] then MissingDependencies(missing) else TaskLimit)]
  }

  /** The loop over what was neither selected nor rejected. */
  method RejectLeftover(tasks: map<TaskId, Task>, l: Limits, ghost p: Progress, candidates: seq<Task>, selected: seq<Task>,
                        placed: set<TaskId>) returns (rejected: seq<Rejection>)
    requires selected == p.selected && forall id :: id in placed <==> Placed(p, id)
    ensures rejected == Leftover(tasks, l, p, candidates)
  {
    rejected := [];
    for i := 0 to |candidates|
      invariant rejected == Leftover(tasks, l, p, candidates[..i])
    {
      var task := candidates[i];
      LeftoverSnoc(tasks, l, p, candidates[..i], task);
      assert candidates[..i + 1] == candidates[..i] + [task];
      rejected := rejected + LeftoverOf(tasks, l, selected, task, task.id in placed);
    }
    assert candidates[..|candidates|] == candidates;
  }

  lemma Grouped<T>(a: seq<T>, b: seq<T>, c: seq<T>)
    ensures (a + b) + c == a + (b + c)
  {
  }

  lemma NotCandidatesFirst(tasks: map<TaskId, Task>, ids: seq<TaskId>)
    requires ids != []
    ensures NotCandidates(tasks, ids) == NotCandidates(tasks, [ids[0]]) + NotCandidates(tasks, ids[1..])
  {
    assert [ids[0]][1..] == [];
    assert NotCandidates(tasks, []) == [];
  }

  lemma {:induction false} NotCandidatesSnoc(tasks: map<TaskId, Task>, ids: seq<TaskId>, id: TaskId)
    ensures NotCandidates(tasks, ids + [id]) == NotCandidates(tasks, ids) + NotCandidates(tasks, [id])
    decreases |ids|
  {
    if ids == [] {
      assert ids + [id] == [id];
      assert [] + NotCandidates(tasks, [id]) == NotCandidates(tasks, [id]);
    } else {
      assert (ids + [id])[1..] == ids[1..] + [id];
      NotCandidatesSnoc(tasks, ids[1..], id);
      var first := NotCandidates(tasks, [ids[0]]);
      NotCandidatesFirst(tasks, ids);
      NotCandidatesFirst(tasks, ids + [id]);
      Grouped(first, NotCandidates(tasks, ids[1..]), NotCandidates(tasks, [id]));
    }
  }

  /** The loop over the identifiers asked for. */
  method RejectOthers(tasks: map<TaskId, Task>, asked: seq<TaskId>) returns (rejected: seq<Rejection>)
    ensures rejected == NotCandidates(tasks, asked)
  {
    rejected := [];
    for i := 0 to |asked|
      invariant rejected == NotCandidates(tasks, asked[..i])
    {
      NotCandidatesSnoc(tasks, asked[..i], asked[i]);
      assert asked[..i + 1] == asked[..i] + [asked[i]];
      assert [asked[i]][1..] == [];
      if asked[i] !in tasks {
        rejected := rejected + [Rejection(asked[i], UnknownTask)];
      } else if tasks[asked[i]].status != Submitted {
        rejected := rejected + [Rejection(asked[i], NotSubmitted(tasks[asked[i]].status))];
      }
    }
    assert asked[..|asked|] == asked;
  }

  /** The whole of `scheduleTasks`. */
  method Schedule(tasks: map<TaskId, Task>, order: seq<TaskId>, config: Limits, requested: Option<seq<TaskId>>,
                  maxTasks: Option<int>) returns (plan: Plan)
    requires forall id | id in order :: id in tasks
    ensures plan == ScheduleTasks(tasks, order, Capped(config, maxTasks), requested)
  {
    var l := config;
    if maxTasks.Some? && maxTasks.value < config.maxTasks { l := config.(maxTasks := maxTasks.value); }
    var wanted := if requested.Some? then Some(Elements(requested.value)) else None;
    var candidates := SortTasks(Filtered(tasks, order, wanted));
    var selected, rejected, total := Choose(tasks, l, candidates);
    ghost var p := Passes(tasks, l, Empty(), candidates);
    var placed := Elements(Ids(selected)) + Elements(RejectedIds(rejected));
    assert forall id :: id in placed <==> Placed(p, id);
    var left := RejectLeftover(tasks, l, p, candidates, selected, placed);
    rejected := rejected + left;
    if requested.Some? {
      var others := RejectOthers(tasks, Dedup(requested.value));
      rejected := rejected + others;
    }
    return Plan(selected, rejected, total);
  }
}
