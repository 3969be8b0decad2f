/**
 What a plan is: conflict-free, within both limits, dependencies first, as full as it can be, every
 candidate in exactly one place, and the same whatever order the records are stored in.
 */
module SchedulePlans {
  import opened Common
  import opened Records
  import opened Scheduler
  import Pruning

  // ---- The candidates ----

  ghost predicate Sorted(ts: seq<Task>) {
    forall i, j | 0 <= i < j < |ts| :: Before(ts[i], ts[j])
  }

  ghost predicate DistinctIds(ts: seq<Task>) {
    forall i, j | 0 <= i < j < |ts| :: ts[i].id != ts[j].id
  }

  lemma BeforeIsTotal(a: Task, b: Task)
    requires a.id != b.id
    ensures Before(a, b) <==> !Before(b, a)
  {
  }

  lemma BeforeIsTransitive(a: Task, b: Task, c: Task)
    requires Before(a, b) && Before(b, c)
    ensures Before(a, c)
  {
  }

  lemma {:induction false} InsertSorts(t: Task, ts: seq<Task>)
    requires Sorted(ts) && forall i | 0 <= i < |ts| :: ts[i].id != t.id
    ensures Sorted(Insert(t, ts)) && forall x :: x in Insert(t, ts) <==> x == t || x in ts
    ensures |Insert(t, ts)| == |ts| + 1
  {
    if ts != [] {
      if Before(t, ts[0]) {
        forall i | 0 <= i < |ts| ensures Before(t, ts[i]) { if i > 0 { BeforeIsTransitive(t, ts[0], ts[i]); } }
      } else {
        InsertSorts(t, ts[1..]);
        var rest := Insert(t, ts[1..]);
        forall i | 0 <= i < |rest| ensures Before(ts[0], rest[i]) {
          assert rest[i] in rest;
          if rest[i] == t { BeforeIsTotal(t, ts[0]); } else { assert rest[i] in ts[1..]; }
        }
        assert ts == [ts[0]] + ts[1..];
      }
    }
  }

  lemma {:induction false} SortSorts(ts: seq<Task>)
    requires DistinctIds(ts)
    ensures Sorted(Sort(ts)) && forall x :: x in Sort(ts) <==> x in ts
    ensures |Sort(ts)| == |ts| && DistinctIds(Sort(ts))
  {
    if ts != [] {
      var init, last := ts[..|ts| - 1], ts[|ts| - 1];
      SortSorts(init);
      forall i | 0 <= i < |Sort(init)| ensures Sort(init)[i].id != last.id { assert Sort(init)[i] in init; }
      InsertSorts(last, Sort(init));
      assert ts == init + [last];
      SortedIsDistinct(Sort(ts), ts);
    }
  }

  /** Sorted sequences repeat no task; one drawn from distinct identifiers repeats none of those. */
  lemma SortedIsDistinct(sorted: seq<Task>, ts: seq<Task>)
    requires Sorted(sorted) && DistinctIds(ts) && forall x :: x in sorted ==> x in ts
    ensures DistinctIds(sorted)
  {
    forall i, j | 0 <= i < j < |sorted| ensures sorted[i].id != sorted[j].id {
      assert sorted[i] in ts && sorted[j] in ts && Before(sorted[i], sorted[j]);
    }
  }

  lemma HeadIsMember(ts: seq<Task>)
    ensures ts == [] || ts[0] in ts
  {
  }

  /** A sorted sequence is determined by its members. */
  lemma {:induction false} SortedIsUnique(a: seq<Task>, b: seq<Task>)
    requires Sorted(a) && Sorted(b) && (forall x :: x in a <==> x in b)
    ensures a == b
    decreases |a|
  {
    if a == [] {
      HeadIsMember(b);
    } else {
      assert a[0] in b && b[0] in a;
      SortedHeads(a, b);
      SortedTails(a, b);
      SortedIsUnique(a[1..], b[1..]);
      assert a == [a[0]] + a[1..] && b == [b[0]] + b[1..];
    }
  }

  lemma SortedHeads(a: seq<Task>, b: seq<Task>)
    requires Sorted(a) && Sorted(b) && a != [] && b != [] && a[0] in b && b[0] in a
    ensures a[0] == b[0]
  {
    var i :| 0 <= i < |a| && a[i] == b[0];
    var j :| 0 <= j < |b| && b[j] == a[0];
    assert i > 0 ==> Before(a[0], b[0]);
    assert j > 0 ==> Before(b[0], a[0]);
  }

  lemma SortedTail(a: seq<Task>, x: Task)
    requires Sorted(a) && a != []
    ensures x in a[1..] <==> x in a && x != a[0]
  {
    assert a == [a[0]] + a[1..];
    if x in a[1..] {
      var i :| 0 < i < |a| && a[i] == x;
      assert Before(a[0], x);
    }
  }

  lemma SortedTails(a: seq<Task>, b: seq<Task>)
    requires Sorted(a) && Sorted(b) && a != [] && b != [] && a[0] == b[0] && (forall x :: x in a <==> x in b)
    ensures forall x :: x in a[1..] <==> x in b[1..]
  {
    forall x ensures x in a[1..] <==> x in b[1..] {
      SortedTail(a, x);
      SortedTail(b, x);
    }
  }

  /** Every stored task appears once in the storage order. */
  ghost predicate Stores(order: seq<TaskId>, tasks: map<TaskId, Task>) {
    Distinct(order) && (forall id :: id in order <==> id in tasks) && forall id | id in tasks :: tasks[id].id == id
  }

  lemma {:induction false} FilteredIs(tasks: map<TaskId, Task>, order: seq<TaskId>, requested: Option<set<TaskId>>)
    requires Distinct(order) && forall id | id in order :: id in tasks && tasks[id].id == id
    ensures var ts := Filtered(tasks, order, requested);
            DistinctIds(ts) && forall x :: x in ts <==> x.id in order && tasks[x.id] == x && Wanted(x, requested)
  {
    if order != [] {
      var init := order[..|order| - 1];
      FilteredIs(tasks, init, requested);
      assert order == init + [order[|order| - 1]];
      var ts := Filtered(tasks, init, requested);
      forall i | 0 <= i < |ts| ensures ts[i].id != order[|order| - 1] { assert ts[i] in ts; }
    }
  }

  lemma CandidatesAre(tasks: map<TaskId, Task>, order: seq<TaskId>, requested: Option<set<TaskId>>)
    requires Stores(order, tasks)
    ensures var ts := Candidates(tasks, order, requested);
            Sorted(ts) && DistinctIds(ts) && forall x :: x in ts <==> x.id in tasks && tasks[x.id] == x && Wanted(x, requested)
  {
    FilteredIs(tasks, order, requested);
    SortSorts(Filtered(tasks, order, requested));
  }

  // ---- Their order, on the records' own fields ----

  /** The more urgent task first; of two as urgent the one submitted earlier, and one without a submission
      time last; of two submitted together the one with the lower identifier. */
  predicate Precedes(a: Task, b: Task) {
    if a.priority != b.priority then b.priority < a.priority
    else match (a.receipt.submittedAt, b.receipt.submittedAt)
      case (Some(x), Some(y)) => x < y || (x == y && a.id < b.id)
      case (Some(_), None) => true
      case (None, Some(_)) => false
      case (None, None) => a.id < b.id
  }

  /** The candidates are the submitted tasks that are asked for, in exactly this order. */
  lemma CandidatesInOrder(tasks: map<TaskId, Task>, order: seq<TaskId>, requested: Option<set<TaskId>>, i: nat, j: nat)
    requires Stores(order, tasks) && i < |Candidates(tasks, order, requested)| && j < |Candidates(tasks, order, requested)|
    ensures var ts := Candidates(tasks, order, requested);
            && (i < j <==> Precedes(ts[i], ts[j]))
            && ts[i].status == Submitted && (requested.Some? ==> ts[i].id in requested.value)
  {
    var ts := Candidates(tasks, order, requested);
    CandidatesAre(tasks, order, requested);
    assert ts[i] in ts;
    if i < j { assert Before(ts[i], ts[j]); }
    if j < i { assert Before(ts[j], ts[i]); }
  }

  /** The plan does not depend on the order in which tasks are stored. */
  lemma PlanIgnoresStorageOrder(tasks: map<TaskId, Task>, a: seq<TaskId>, b: seq<TaskId>, l: Limits, requested: Option<seq<TaskId>>)
    requires Stores(a, tasks) && Stores(b, tasks)
    ensures ScheduleTasks(tasks, a, l, requested) == ScheduleTasks(tasks, b, l, requested)
  {
    var wanted := if requested.Some? then Some(Elements(requested.value)) else None;
    CandidatesAre(tasks, a, wanted);
    CandidatesAre(tasks, b, wanted);
    SortedIsUnique(Candidates(tasks, a, wanted), Candidates(tasks, b, wanted));
  }

  // ---- What every pass keeps ----

  function Commits(ts: seq<Task>): nat {
    if ts == [] then 0 else Commits(ts[..|ts| - 1]) + |ts[|ts| - 1].receipt.commits|
  }

  ghost predicate ConflictFree(l: Limits, selected: seq<Task>) {
    forall i, j | 0 <= i < j < |selected| :: !Collides(l, selected[j], selected[i])
  }

  ghost predicate DependenciesFirst(tasks: map<TaskId, Task>, l: Limits, selected: seq<Task>) {
    forall i | 0 <= i < |selected| :: Ready(tasks, l, selected[i], selected[..i])
  }

  /** Why a task was turned away still holds: it does not fit, or collides with a selected task. */
  ghost predicate Justified(l: Limits, p: Progress, t: Task, r: Reason) {
    match r
    case NeverFits => |t.receipt.commits| > l.maxCommits
    case CommitLimit => |t.receipt.commits| <= l.maxCommits && p.total + |t.receipt.commits| > l.maxCommits
    case Conflict(chosen) => exists i | 0 <= i < |p.selected| :: p.selected[i].id == chosen && Collides(l, t, p.selected[i])
    case _ => false
  }

  ghost predicate RejectionsJustified(l: Limits, p: Progress, ts: seq<Task>) {
    forall i | 0 <= i < |p.rejected| :: RejectionJustified(l, p, ts, p.rejected[i])
  }

  ghost predicate RejectionJustified(l: Limits, p: Progress, ts: seq<Task>, r: Rejection) {
    exists t | t in ts :: t.id == r.task && Justified(l, p, t, r.reason)
  }

  /** Selected and rejected identifiers are all different. */
  ghost predicate PlacedOnce(p: Progress) {
    Distinct(Ids(p.selected)) && Distinct(RejectedIds(p.rejected))
    && forall id :: !(id in Ids(p.selected) && id in RejectedIds(p.rejected))
  }

  ghost predicate Sane(tasks: map<TaskId, Task>, l: Limits, ts: seq<Task>, p: Progress) {
    && (forall t | t in p.selected :: t in ts)
    && PlacedOnce(p)
    && p.total == Commits(p.selected) && (p.selected != [] ==> p.total <= l.maxCommits)
    && (p.selected != [] ==> |p.selected| <= l.maxTasks)
    && ConflictFree(l, p.selected)
    && DependenciesFirst(tasks, l, p.selected)
    && RejectionsJustified(l, p, ts)
  }

  lemma PlacedOnceAppend(p: Progress, t: Task, r: Rejection)
    requires PlacedOnce(p) && !Placed(p, t.id) && r.task == t.id
    ensures PlacedOnce(p.(selected := p.selected + [t])) && PlacedOnce(p.(rejected := p.rejected + [r]))
  {
    IdsAppend(p.selected, t, p.rejected, r);
  }

  lemma JustifiedStays(l: Limits, p: Progress, q: Progress, t: Task, r: Reason)
    requires Justified(l, p, t, r) && p.selected <= q.selected && p.total <= q.total
    ensures Justified(l, q, t, r)
  {
    if r.Conflict? {
      var i :| 0 <= i < |p.selected| && p.selected[i].id == r.chosen && Collides(l, t, p.selected[i]);
      assert q.selected[i] == p.selected[i];
    }
  }

  lemma RejectionsStay(l: Limits, p: Progress, q: Progress, ts: seq<Task>)
    requires RejectionsJustified(l, p, ts) && p.selected <= q.selected && p.total <= q.total
    ensures forall i | 0 <= i < |p.rejected| :: RejectionJustified(l, q, ts, p.rejected[i])
  {
    forall i | 0 <= i < |p.rejected| ensures RejectionJustified(l, q, ts, p.rejected[i]) {
      assert RejectionJustified(l, p, ts, p.rejected[i]);
      var t :| t in ts && t.id == p.rejected[i].task && Justified(l, p, t, p.rejected[i].reason);
      JustifiedStays(l, p, q, t, p.rejected[i].reason);
    }
  }

  lemma ConflictFreeAppend(l: Limits, selected: seq<Task>, t: Task)
    requires ConflictFree(l, selected) && forall i | 0 <= i < |selected| :: !Collides(l, t, selected[i])
    ensures ConflictFree(l, selected + [t]) && Commits(selected + [t]) == Commits(selected) + |t.receipt.commits|
  {
    assert (selected + [t])[..|selected|] == selected;
  }

  lemma SelectedAppend(tasks: map<TaskId, Task>, l: Limits, selected: seq<Task>, t: Task)
    requires DependenciesFirst(tasks, l, selected) && Ready(tasks, l, t, selected)
    ensures DependenciesFirst(tasks, l, selected + [t])
  {
    var more := selected + [t];
    assert more[..|selected|] == selected;
    forall i | 0 <= i < |more| ensures Ready(tasks, l, more[i], more[..i]) {
      if i < |selected| {
        assert more[..i] == selected[..i];
        assert Ready(tasks, l, selected[i], selected[..i]);
      }
    }
  }

  lemma SelectingIsSane(tasks: map<TaskId, Task>, l: Limits, ts: seq<Task>, p: Progress, t: Task)
    requires Sane(tasks, l, ts, p) && t in ts && |p.selected| < l.maxTasks && !Placed(p, t.id)
    requires Ready(tasks, l, t, p.selected) && p.total + |t.receipt.commits| <= l.maxCommits
    requires forall i | 0 <= i < |p.selected| :: !Collides(l, t, p.selected[i])
    ensures Sane(tasks, l, ts, Progress(p.selected + [t], p.rejected, p.total + |t.receipt.commits|, true))
  {
    var q := Progress(p.selected + [t], p.rejected, p.total + |t.receipt.commits|, true);
    PlacedOnceAppend(p, t, Rejection(t.id, TaskLimit));
    assert PlacedOnce(q) by { assert PlacedOnce(p.(selected := p.selected + [t])); }
    ConflictFreeAppend(l, p.selected, t);
    SelectedAppend(tasks, l, p.selected, t);
    RejectionsStay(l, p, q, ts);
  }

  lemma RejectingIsSane(tasks: map<TaskId, Task>, l: Limits, ts: seq<Task>, p: Progress, t: Task, r: Reason)
    requires Sane(tasks, l, ts, p) && t in ts && !Placed(p, t.id) && Justified(l, p, t, r)
    ensures Sane(tasks, l, ts, p.(rejected := p.rejected + [Rejection(t.id, r)]))
  {
    var q := p.(rejected := p.rejected + [Rejection(t.id, r)]);
    PlacedOnceAppend(p, t, Rejection(t.id, r));
    RejectionsStay(l, p, q, ts);
    JustifiedStays(l, p, q, t, r);
    assert RejectionJustified(l, q, ts, Rejection(t.id, r));
    forall i | 0 <= i < |q.rejected| ensures RejectionJustified(l, q, ts, q.rejected[i]) {
      if i < |p.rejected| { assert q.rejected[i] == p.rejected[i]; }
    }
  }

  lemma ConsiderIsSane(tasks: map<TaskId, Task>, l: Limits, ts: seq<Task>, p: Progress, t: Task)
    requires Sane(tasks, l, ts, p) && t in ts && |p.selected| < l.maxTasks
    ensures Sane(tasks, l, ts, Consider(tasks, l, p, t))
  {
    if Placed(p, t.id) || !Ready(tasks, l, t, p.selected) {
    } else if p.total + |t.receipt.commits| > l.maxCommits {
      RejectingIsSane(tasks, l, ts, p, t, if |t.receipt.commits| > l.maxCommits then NeverFits else CommitLimit);
    } else {
      var collision := FirstCollision(l, t, p.selected);
      if collision.Some? {
        RejectingIsSane(tasks, l, ts, p, t, Conflict(p.selected[collision.value].id));
      } else {
        SelectingIsSane(tasks, l, ts, p, t);
      }
    }
  }

  lemma {:induction false} ScanIsSane(tasks: map<TaskId, Task>, l: Limits, ts: seq<Task>, p: Progress, rest: seq<Task>)
    requires Sane(tasks, l, ts, p) && forall t | t in rest :: t in ts
    ensures Sane(tasks, l, ts, Scan(tasks, l, p, rest))
    decreases |rest|
  {
    if rest != [] && |p.selected| < l.maxTasks {
      assert rest[0] in rest;
      ConsiderIsSane(tasks, l, ts, p, rest[0]);
      ScanIsSane(tasks, l, ts, Consider(tasks, l, p, rest[0]), rest[1..]);
    }
  }

  // ---- Maximality ----

  /** Nothing more can be added: a candidate outside the plan waits for a dependency that is not
      coming, does not fit, or collides. */
  ghost predicate CannotAdd(tasks: map<TaskId, Task>, l: Limits, p: Progress, t: Task) {
    || !Ready(tasks, l, t, p.selected)
    || p.total + |t.receipt.commits| > l.maxCommits
    || exists i | 0 <= i < |p.selected| :: Collides(l, t, p.selected[i])
  }

  /** A pass without progress has looked at every task it was given. */
  lemma {:induction false} IdleScanRejects(tasks: map<TaskId, Task>, l: Limits, p: Progress, rest: seq<Task>)
    requires !p.progress && !Scan(tasks, l, p, rest).progress && |p.selected| < l.maxTasks
    ensures var q := Scan(tasks, l, p, rest);
            q.selected == p.selected && forall t | t in rest :: Placed(q, t.id) || !Ready(tasks, l, t, q.selected)
    decreases |rest|
  {
    ScanGrows(tasks, l, p, rest);
    if rest != [] {
      var p1 := Consider(tasks, l, p, rest[0]);
      ScanGrows(tasks, l, p1, rest[1..]);
      IdleScanRejects(tasks, l, p1, rest[1..]);
      var q := Scan(tasks, l, p, rest);
      if Placed(p, rest[0].id) {
        PlacedStays(p, q, rest[0].id);
      } else if Ready(tasks, l, rest[0], p.selected) {
        ConsideredIsPlaced(tasks, l, p, rest[0]);
        PlacedStays(p1, q, rest[0].id);
      }
      assert rest == [rest[0]] + rest[1..];
    }
  }

  lemma ConsideredIsPlaced(tasks: map<TaskId, Task>, l: Limits, p: Progress, t: Task)
    requires !Placed(p, t.id) && Ready(tasks, l, t, p.selected)
    ensures Placed(Consider(tasks, l, p, t), t.id)
  {
    var q := Consider(tasks, l, p, t);
    if |q.selected| > |p.selected| {
      assert Ids(q.selected)[|p.selected|] == t.id;
    } else {
      assert RejectedIds(q.rejected)[|p.rejected|] == t.id;
    }
  }

  lemma PlacedStays(p: Progress, q: Progress, id: TaskId)
    requires p.selected <= q.selected && p.rejected <= q.rejected && Placed(p, id)
    ensures Placed(q, id)
  {
    if id in Ids(p.selected) {
      var i :| 0 <= i < |p.selected| && Ids(p.selected)[i] == id;
      assert Ids(q.selected)[i] == id;
    } else {
      var i :| 0 <= i < |p.rejected| && RejectedIds(p.rejected)[i] == id;
      assert RejectedIds(q.rejected)[i] == id;
    }
  }

  lemma {:induction false} PassesSettle(tasks: map<TaskId, Task>, l: Limits, ts: seq<Task>, p: Progress)
    requires Sane(tasks, l, ts, p)
    ensures var q := Passes(tasks, l, p, ts);
            Sane(tasks, l, ts, q)
            && (|q.selected| < l.maxTasks ==> forall t | t in ts :: Placed(q, t.id) || !Ready(tasks, l, t, q.selected))
    decreases l.maxTasks - |p.selected|
  {
    if |p.selected| < l.maxTasks {
      var p0 := p.(progress := false);
      ScanIsSane(tasks, l, ts, p0, ts);
      ScanGrows(tasks, l, p0, ts);
      var q := Scan(tasks, l, p0, ts);
      if q.progress { PassesSettle(tasks, l, ts, q); } else { IdleScanRejects(tasks, l, p0, ts); }
    }
  }

  lemma RejectedCannotBeAdded(tasks: map<TaskId, Task>, l: Limits, ts: seq<Task>, p: Progress, t: Task)
    requires Sane(tasks, l, ts, p) && DistinctIds(ts) && t in ts && t.id in RejectedIds(p.rejected)
    ensures CannotAdd(tasks, l, p, t)
  {
    var i :| 0 <= i < |p.rejected| && RejectedIds(p.rejected)[i] == t.id;
    assert RejectionJustified(l, p, ts, p.rejected[i]);
    var u :| u in ts && u.id == p.rejected[i].task && Justified(l, p, u, p.rejected[i].reason);
    assert u == t;
  }

  // ---- The first pass goes by that order ----

  /** Nothing stands in the way of this task from the start. */
  ghost predicate Free(tasks: map<TaskId, Task>, l: Limits, ts: seq<Task>, t: Task) {
    && (l.requireDependencies ==> forall d | d in t.dependsOn :: d in tasks && tasks[d].status == Merged)
    && forall u | u in ts && u != t :: !Collides(l, t, u)
  }

  lemma ReadyStays(tasks: map<TaskId, Task>, l: Limits, t: Task, selected: seq<Task>)
    requires l.requireDependencies ==> forall d | d in t.dependsOn :: d in tasks && tasks[d].status == Merged
    ensures Ready(tasks, l, t, selected)
  {
  }

  lemma {:induction false} ScanSplits(tasks: map<TaskId, Task>, l: Limits, p: Progress, a: seq<Task>, b: seq<Task>)
    ensures Scan(tasks, l, p, a + b) == Scan(tasks, l, Scan(tasks, l, p, a), b)
    decreases |a|
  {
    if a == [] {
      assert a + b == b;
    } else if |p.selected| < l.maxTasks {
      assert (a + b)[1..] == a[1..] + b;
      ScanSplits(tasks, l, Consider(tasks, l, p, a[0]), a[1..], b);
    }
  }

  lemma {:induction false} ScanTakesFrom(tasks: map<TaskId, Task>, l: Limits, p: Progress, ts: seq<Task>)
    ensures var q := Scan(tasks, l, p, ts);
            && (forall t | t in q.selected :: t in p.selected || t in ts)
            && (forall id | id in RejectedIds(q.rejected) :: id in RejectedIds(p.rejected) || exists t | t in ts :: t.id == id)
    decreases |ts|
  {
    if ts != [] && |p.selected| < l.maxTasks {
      var p1 := Consider(tasks, l, p, ts[0]);
      ScanTakesFrom(tasks, l, p1, ts[1..]);
      assert ts == [ts[0]] + ts[1..];
      ConsiderTakes(tasks, l, p, ts[0]);
    }
  }

  lemma ConsiderTakes(tasks: map<TaskId, Task>, l: Limits, p: Progress, t: Task)
    ensures var q := Consider(tasks, l, p, t);
            && (forall u | u in q.selected :: u in p.selected || u == t)
            && (forall id | id in RejectedIds(q.rejected) :: id in RejectedIds(p.rejected) || id == t.id)
  {
    var q := Consider(tasks, l, p, t);
    if |q.rejected| > |p.rejected| {
      IdsAppend(p.selected, t, p.rejected, q.rejected[|p.rejected|]);
      assert q.rejected == p.rejected + [q.rejected[|p.rejected|]];
    }
  }

  lemma PassesGrow(tasks: map<TaskId, Task>, l: Limits, p: Progress, ts: seq<Task>)
    ensures var q := Passes(tasks, l, p, ts); p.selected <= q.selected && p.rejected <= q.rejected
    decreases l.maxTasks - |p.selected|
  {
    if |p.selected| < l.maxTasks {
      var q := Scan(tasks, l, p.(progress := false), ts);
      ScanGrows(tasks, l, p.(progress := false), ts);
      if q.progress { PassesGrow(tasks, l, q, ts); }
    }
  }

  /** What is in the plan when the first pass comes to its `i`-th task. */
  function FirstPass(tasks: map<TaskId, Task>, l: Limits, ts: seq<Task>, i: nat): Progress
    requires i <= |ts|
  {
    Scan(tasks, l, Empty().(progress := false), ts[..i])
  }

  lemma FirstPassIsBehind(tasks: map<TaskId, Task>, l: Limits, ts: seq<Task>, i: nat)
    requires i <= |ts| && l.maxTasks > 0
    ensures var p, q := FirstPass(tasks, l, ts, i), Passes(tasks, l, Empty(), ts);
            p.selected <= q.selected && p.rejected <= q.rejected
  {
    var p, q := FirstPass(tasks, l, ts, i), Passes(tasks, l, Empty(), ts);
    var whole := Scan(tasks, l, Empty().(progress := false), ts);
    assert ts == ts[..i] + ts[i..];
    ScanSplits(tasks, l, Empty().(progress := false), ts[..i], ts[i..]);
    ScanGrows(tasks, l, p, ts[i..]);
    PassesGrow(tasks, l, whole, ts);
  }

  /** A full plan stays as it is. */
  lemma FullStays(tasks: map<TaskId, Task>, l: Limits, ts: seq<Task>, i: nat)
    requires i <= |ts| && l.maxTasks > 0
    ensures |FirstPass(tasks, l, ts, i).selected| >= l.maxTasks ==>
              Passes(tasks, l, Empty(), ts).selected == FirstPass(tasks, l, ts, i).selected
  {
    assert ts == ts[..i] + ts[i..];
    ScanSplits(tasks, l, Empty().(progress := false), ts[..i], ts[i..]);
  }

  /** The first pass selects an unhindered task, or finds that it does not fit. */
  lemma FreeIsPlaced(tasks: map<TaskId, Task>, l: Limits, ts: seq<Task>, i: nat)
    requires DistinctIds(ts) && i < |ts| && Free(tasks, l, ts, ts[i]) && |FirstPass(tasks, l, ts, i).selected| < l.maxTasks
    ensures var p, q := FirstPass(tasks, l, ts, i), FirstPass(tasks, l, ts, i + 1);
            q.selected == p.selected + [ts[i]]
            || (q.rejected != p.rejected && q == p.(rejected := q.rejected) && p.total + |ts[i].receipt.commits| > l.maxCommits
                && ts[i].id in RejectedIds(q.rejected))
  {
    var p, t := FirstPass(tasks, l, ts, i), ts[i];
    assert ts[..i + 1] == ts[..i] + [t];
    ScanSplits(tasks, l, Empty().(progress := false), ts[..i], [t]);
    assert [t][1..] == [];
    ScanTakesFrom(tasks, l, Empty().(progress := false), ts[..i]);
    NotPlacedYet(tasks, l, ts, i);
    ReadyStays(tasks, l, t, p.selected);
    forall k | 0 <= k < |p.selected| ensures !Collides(l, t, p.selected[k]) {
      assert p.selected[k] in ts[..i];
      assert p.selected[k] != t;
    }
    if p.total + |t.receipt.commits| > l.maxCommits {
      IdsAppend(p.selected, t, p.rejected, Rejection(t.id, if |t.receipt.commits| > l.maxCommits then NeverFits else CommitLimit));
    }
  }

  lemma NotPlacedYet(tasks: map<TaskId, Task>, l: Limits, ts: seq<Task>, i: nat)
    requires DistinctIds(ts) && i < |ts|
    ensures !Placed(FirstPass(tasks, l, ts, i), ts[i].id)
    ensures forall t | t in FirstPass(tasks, l, ts, i).selected :: t in ts[..i]
  {
    var p := FirstPass(tasks, l, ts, i);
    ScanTakesFrom(tasks, l, Empty().(progress := false), ts[..i]);
    forall k | 0 <= k < |p.selected| ensures p.selected[k].id != ts[i].id { assert p.selected[k] in ts[..i]; }
    assert forall t | t in ts[..i] :: t.id != ts[i].id;
  }

  // ---- The plan ----

  function Wish(requested: Option<seq<TaskId>>): Option<set<TaskId>> {
    if requested.Some? then Some(Elements(requested.value)) else None
  }

  lemma EmptyIsSane(tasks: map<TaskId, Task>, l: Limits, ts: seq<Task>)
    ensures Sane(tasks, l, ts, Empty())
  {
  }

  /** The chosen tasks: from the candidates, within both limits, no two in conflict, and each with
      every dependency merged or chosen earlier. */
  lemma PlanIsValid(tasks: map<TaskId, Task>, order: seq<TaskId>, l: Limits, requested: Option<seq<TaskId>>)
    requires Stores(order, tasks)
    ensures var plan := ScheduleTasks(tasks, order, l, requested);
            && (forall t | t in plan.selected :: t.id in tasks && tasks[t.id] == t && Wanted(t, Wish(requested)))
            && Distinct(Ids(plan.selected))
            && plan.total == Commits(plan.selected)
            && (plan.selected != [] ==> |plan.selected| <= l.maxTasks && plan.total <= l.maxCommits)
            && ConflictFree(l, plan.selected)
            && DependenciesFirst(tasks, l, plan.selected)
  {
    var ts := Candidates(tasks, order, Wish(requested));
    CandidatesAre(tasks, order, Wish(requested));
    EmptyIsSane(tasks, l, ts);
    PassesSettle(tasks, l, ts, Empty());
  }

  /** On the records' own fields: what is selected was submitted, and was asked for if anything was; and where
      dependencies matter each one is merged, or selected earlier. */
  lemma SelectedInPlainTerms(tasks: map<TaskId, Task>, order: seq<TaskId>, l: Limits, requested: Option<seq<TaskId>>, i: nat)
    requires Stores(order, tasks) && i < |ScheduleTasks(tasks, order, l, requested).selected|
    ensures var selected := ScheduleTasks(tasks, order, l, requested).selected;
            var t := selected[i];
            && t.id in tasks && tasks[t.id] == t && t.status == Submitted && (requested.Some? ==> t.id in requested.value)
            && (l.requireDependencies ==> forall d | d in t.dependsOn ::
                  (d in tasks && tasks[d].status == Merged) || exists j | 0 <= j < i :: selected[j].id == d)
  {
    PlanIsValid(tasks, order, l, requested);
    var selected := ScheduleTasks(tasks, order, l, requested).selected;
    var t := selected[i];
    assert t in selected && Ready(tasks, l, t, selected[..i]);
    if l.requireDependencies {
      forall d | d in t.dependsOn && !(d in tasks && tasks[d].status == Merged) ensures exists j | 0 <= j < i :: selected[j].id == d {
        var j :| 0 <= j < |selected[..i]| && Ids(selected[..i])[j] == d;
        assert selected[j].id == d;
      }
    }
  }

  // ---- Why the others are not in it ----

  lemma {:induction false} MissingAre(tasks: map<TaskId, Task>, selected: seq<Task>, deps: seq<TaskId>)
    ensures forall d :: d in Missing(tasks, selected, deps) <==>
                          d in deps && !MergedTask(tasks, d) && d !in Ids(selected)
    decreases |deps|
  {
    if deps != [] {
      MissingAre(tasks, selected, deps[1..]);
      assert deps == [deps[0]] + deps[1..];
    }
  }

  /** What a reason claims, on the records and the limits. */
  ghost predicate True(tasks: map<TaskId, Task>, l: Limits, plan: Plan, r: Rejection) {
    if r.reason.UnknownTask? then r.task !in tasks
    else if r.reason.NotSubmitted? then r.task in tasks && tasks[r.task].status == r.reason.status && r.reason.status != Submitted
    else r.task in tasks && tasks[r.task].status == Submitted && TrueOf(tasks, l, plan, tasks[r.task], r.reason)
  }

  ghost predicate TrueOf(tasks: map<TaskId, Task>, l: Limits, plan: Plan, t: Task, reason: Reason) {
    && (reason.NeverFits? ==> |t.receipt.commits| > l.maxCommits)
    && (reason.CommitLimit? ==> |t.receipt.commits| <= l.maxCommits < plan.total + |t.receipt.commits|)
    && (reason.Conflict? ==> exists i | 0 <= i < |plan.selected| ::
          plan.selected[i].id == reason.chosen && Collides(l, t, plan.selected[i]))
    && (reason.MissingDependencies? ==>
          l.requireDependencies && reason.ids != []
          && forall d :: d in reason.ids <==> d in t.dependsOn && !MergedTask(tasks, d) && d !in Ids(plan.selected))
    && (reason.TaskLimit? ==> |plan.selected| >= l.maxTasks)
  }

  lemma {:induction false} LeftoversAreTrue(tasks: map<TaskId, Task>, l: Limits, plan: Plan, p: Progress, ts: seq<Task>)
    requires plan.selected == p.selected
    requires forall t | t in ts :: t.id in tasks && tasks[t.id] == t && t.status == Submitted
    requires |p.selected| < l.maxTasks ==> forall t | t in ts :: Placed(p, t.id) || !Ready(tasks, l, t, p.selected)
    ensures forall r | r in Leftover(tasks, l, p, ts) :: True(tasks, l, plan, r)
    decreases |ts|
  {
    if ts != [] {
      LeftoversAreTrue(tasks, l, plan, p, ts[1..]);
      assert ts[0] in ts;
      MissingAre(tasks, p.selected, ts[0].dependsOn);
      var missing := if l.requireDependencies then Missing(tasks, p.selected, ts[0].dependsOn) else [];
      if missing == [] { AllMet(tasks, l, p.selected, ts[0]); } else { assert missing[0] in missing; }
    }
  }

  lemma AllMet(tasks: map<TaskId, Task>, l: Limits, selected: seq<Task>, t: Task)
    requires l.requireDependencies ==> Missing(tasks, selected, t.dependsOn) == []
    ensures Ready(tasks, l, t, selected)
  {
    MissingAre(tasks, selected, t.dependsOn);
    if l.requireDependencies {
      forall d | d in t.dependsOn ensures MergedTask(tasks, d) || d in Ids(selected) {
        assert d !in Missing(tasks, selected, t.dependsOn);
      }
    }
  }

  lemma {:induction false} StrangersAreTrue(tasks: map<TaskId, Task>, l: Limits, plan: Plan, ids: seq<TaskId>)
    ensures forall r | r in NotCandidates(tasks, ids) :: True(tasks, l, plan, r)
    decreases |ids|
  {
    if ids != [] { StrangersAreTrue(tasks, l, plan, ids[1..]); }
  }

  lemma TurnedAwayTruly(tasks: map<TaskId, Task>, l: Limits, plan: Plan, p: Progress, ts: seq<Task>, r: Rejection)
    requires Sane(tasks, l, ts, p) && plan.selected == p.selected && plan.total == p.total && r in p.rejected
    requires forall t | t in ts :: t.id in tasks && tasks[t.id] == t && t.status == Submitted
    ensures True(tasks, l, plan, r)
  {
    var i :| 0 <= i < |p.rejected| && p.rejected[i] == r;
    assert RejectionJustified(l, p, ts, p.rejected[i]);
    var t :| t in ts && t.id == r.task && Justified(l, p, t, r.reason);
  }

  /** Every reason that is given is the case. */
  lemma ReasonsAreTrue(tasks: map<TaskId, Task>, order: seq<TaskId>, l: Limits, requested: Option<seq<TaskId>>, r: Rejection)
    requires Stores(order, tasks) && r in ScheduleTasks(tasks, order, l, requested).rejected
    ensures True(tasks, l, ScheduleTasks(tasks, order, l, requested), r)
  {
    var plan := ScheduleTasks(tasks, order, l, requested);
    var ts := Candidates(tasks, order, Wish(requested));
    var p := Passes(tasks, l, Empty(), ts);
    CandidatesAre(tasks, order, Wish(requested));
    EmptyIsSane(tasks, l, ts);
    PassesSettle(tasks, l, ts, Empty());
    LeftoversAreTrue(tasks, l, plan, p, ts);
    if r in p.rejected { TurnedAwayTruly(tasks, l, plan, p, ts, r); }
    if requested.Some? { StrangersAreTrue(tasks, l, plan, Dedup(requested.value)); }
  }

  /** A plan made for one call is within that call's limit and the configured one. */
  lemma PlanFitsBothLimits(tasks: map<TaskId, Task>, order: seq<TaskId>, config: Limits, requested: Option<seq<TaskId>>, maxTasks: Option<int>)
    requires Stores(order, tasks)
    ensures var plan := ScheduleTasks(tasks, order, Capped(config, maxTasks), requested);
            plan.selected != [] ==>
              |plan.selected| <= config.maxTasks && (maxTasks.Some? ==> |plan.selected| <= maxTasks.value)
              && plan.total <= config.maxCommits
  {
    PlanIsValid(tasks, order, Capped(config, maxTasks), requested);
  }

  /** Unless the task limit was reached, no candidate left out could have been added. */
  lemma PlanIsMaximal(tasks: map<TaskId, Task>, order: seq<TaskId>, l: Limits, requested: Option<seq<TaskId>>, t: Task)
    requires Stores(order, tasks) && t in Candidates(tasks, order, Wish(requested))
    ensures var plan := ScheduleTasks(tasks, order, l, requested);
            |plan.selected| < l.maxTasks && t !in plan.selected ==>
              !Ready(tasks, l, t, plan.selected)
              || plan.total + |t.receipt.commits| > l.maxCommits
              || exists i | 0 <= i < |plan.selected| :: Collides(l, t, plan.selected[i])
  {
    var ts := Candidates(tasks, order, Wish(requested));
    var q := Passes(tasks, l, Empty(), ts);
    CandidatesAre(tasks, order, Wish(requested));
    EmptyIsSane(tasks, l, ts);
    PassesSettle(tasks, l, ts, Empty());
    if t !in q.selected {
      SelectedById(ts, q, t);
      if t.id in RejectedIds(q.rejected) { RejectedCannotBeAdded(tasks, l, ts, q, t); }
    }
  }

  /** A task was turned away for its commits: with those selected before it, none of them less urgent, they
      would have been too many. */
  ghost predicate DidNotFit(plan: Plan, l: Limits, t: Task, n: nat) {
    && n <= |plan.selected| && Commits(plan.selected[..n]) + |t.receipt.commits| > l.maxCommits
    && (forall k | 0 <= k < n :: Precedes(plan.selected[k], t))
    && exists i | 0 <= i < |plan.rejected| ::
         plan.rejected[i].task == t.id && (plan.rejected[i].reason == NeverFits || plan.rejected[i].reason == CommitLimit)
  }

  /** Urgency decides. If nothing stands in the way of a task, then whatever is selected of those after it
      comes later in the plan, or the task did not fit. */
  lemma UrgentFirst(tasks: map<TaskId, Task>, order: seq<TaskId>, l: Limits, requested: Option<seq<TaskId>>, a: Task, b: Task)
    returns (m: nat, n: nat)
    requires Stores(order, tasks) && a in Candidates(tasks, order, Wish(requested)) && Precedes(a, b)
    requires Free(tasks, l, Candidates(tasks, order, Wish(requested)), a)
    requires b in ScheduleTasks(tasks, order, l, requested).selected
    ensures var plan := ScheduleTasks(tasks, order, l, requested);
            || (m < n < |plan.selected| && plan.selected[m] == a && plan.selected[n] == b)
            || (m <= n < |plan.selected| && plan.selected[n] == b && DidNotFit(plan, l, a, m))
  {
    var ts := Candidates(tasks, order, Wish(requested));
    CandidatesAre(tasks, order, Wish(requested));
    PlanIsValid(tasks, order, l, requested);
    var i :| 0 <= i < |ts| && ts[i] == a;
    var j :| 0 <= j < |ts| && ts[j] == b;
    CandidatesInOrder(tasks, order, Wish(requested), i, j);
    n :| 0 <= n < |ScheduleTasks(tasks, order, l, requested).selected| && ScheduleTasks(tasks, order, l, requested).selected[n] == b;
    m := |FirstPass(tasks, l, ts, i).selected|;
    PlacedOrTurnedAway(tasks, l, ts, i, j, n);
    if FirstPass(tasks, l, ts, i + 1).selected != FirstPass(tasks, l, ts, i).selected + [a] {
      TurnedAway(tasks, order, l, requested, i);
    }
  }

  /** By position: the `i`-th candidate is selected before the `j`-th, or its commits were too many. */
  lemma PlacedOrTurnedAway(tasks: map<TaskId, Task>, l: Limits, ts: seq<Task>, i: nat, j: nat, n: nat)
    requires DistinctIds(ts) && i < j < |ts| && Free(tasks, l, ts, ts[i])
    requires var q := Passes(tasks, l, Empty(), ts); n < |q.selected| && q.selected[n] == ts[j]
    ensures l.maxTasks > 0
    ensures var p, p1, q := FirstPass(tasks, l, ts, i), FirstPass(tasks, l, ts, i + 1), Passes(tasks, l, Empty(), ts);
            && |p.selected| <= n
            && (p1.selected == p.selected + [ts[i]] ==> |p.selected| < n && q.selected[|p.selected|] == ts[i])
            && (p1.selected != p.selected + [ts[i]] ==>
                  p1 == p.(rejected := p1.rejected) && p.total + |ts[i].receipt.commits| > l.maxCommits
                  && ts[i].id in RejectedIds(p1.rejected))
  {
    var p, p1, q := FirstPass(tasks, l, ts, i), FirstPass(tasks, l, ts, i + 1), Passes(tasks, l, Empty(), ts);
    FirstPassIsBehind(tasks, l, ts, i);
    FirstPassIsBehind(tasks, l, ts, i + 1);
    NotPlacedYet(tasks, l, ts, i);
    FullStays(tasks, l, ts, i);
    BehindComesLater(ts, p, q, i, j, n);
    FreeIsPlaced(tasks, l, ts, i);
    if p1.selected == p.selected + [ts[i]] { assert q.selected[|p.selected|] == ts[i]; }
  }

  lemma BehindComesLater(ts: seq<Task>, p: Progress, q: Progress, i: nat, j: nat, n: nat)
    requires DistinctIds(ts) && i <= j < |ts| && p.selected <= q.selected && n < |q.selected| && q.selected[n] == ts[j]
    requires forall t | t in p.selected :: t in ts[..i]
    ensures n >= |p.selected|
  {
    forall k | 0 <= k < |p.selected| ensures q.selected[k] != ts[j] {
      assert q.selected[k] == p.selected[k];
      assert p.selected[k] in ts[..i];
    }
  }

  lemma TurnedAway(tasks: map<TaskId, Task>, order: seq<TaskId>, l: Limits, requested: Option<seq<TaskId>>, i: nat)
    requires Stores(order, tasks)
    requires var ts := Candidates(tasks, order, Wish(requested));
             i < |ts| && l.maxTasks > 0
             && var p, q := FirstPass(tasks, l, ts, i), FirstPass(tasks, l, ts, i + 1);
                q == p.(rejected := q.rejected) && p.total + |ts[i].receipt.commits| > l.maxCommits
                && ts[i].id in RejectedIds(q.rejected)
    ensures var ts := Candidates(tasks, order, Wish(requested));
            DidNotFit(ScheduleTasks(tasks, order, l, requested), l, ts[i], |FirstPass(tasks, l, ts, i).selected|)
  {
    var ts := Candidates(tasks, order, Wish(requested));
    var plan := ScheduleTasks(tasks, order, l, requested);
    var p, q := FirstPass(tasks, l, ts, i), FirstPass(tasks, l, ts, i + 1);
    CandidatesAre(tasks, order, Wish(requested));
    FirstPassIsSane(tasks, l, ts, i);
    FirstPassIsBehind(tasks, l, ts, i);
    FirstPassIsBehind(tasks, l, ts, i + 1);
    assert plan.selected[..|p.selected|] == p.selected;
    NotPlacedYet(tasks, l, ts, i);
    forall k | 0 <= k < |p.selected| ensures Precedes(plan.selected[k], ts[i]) {
      assert p.selected[k] in ts[..i];
      var m :| 0 <= m < i && ts[m] == p.selected[k];
      CandidatesInOrder(tasks, order, Wish(requested), m, i);
    }
    RejectedForCommits(tasks, l, ts, i);
    var k :| 0 <= k < |q.rejected| && q.rejected[k].task == ts[i].id
             && (q.rejected[k].reason == NeverFits || q.rejected[k].reason == CommitLimit);
    assert plan.rejected[k] == q.rejected[k];
  }

  lemma FirstPassIsSane(tasks: map<TaskId, Task>, l: Limits, ts: seq<Task>, i: nat)
    requires i <= |ts|
    ensures Sane(tasks, l, ts, FirstPass(tasks, l, ts, i))
  {
    EmptyIsSane(tasks, l, ts);
    ScanIsSane(tasks, l, ts, Empty().(progress := false), ts[..i]);
  }

  lemma RejectedForCommits(tasks: map<TaskId, Task>, l: Limits, ts: seq<Task>, i: nat)
    requires DistinctIds(ts) && i < |ts|
    requires var p, q := FirstPass(tasks, l, ts, i), FirstPass(tasks, l, ts, i + 1);
             p.total + |ts[i].receipt.commits| > l.maxCommits && ts[i].id in RejectedIds(q.rejected)
    ensures var q := FirstPass(tasks, l, ts, i + 1);
            exists k | 0 <= k < |q.rejected| ::
              q.rejected[k].task == ts[i].id && (q.rejected[k].reason == NeverFits || q.rejected[k].reason == CommitLimit)
  {
    var p, q, t := FirstPass(tasks, l, ts, i), FirstPass(tasks, l, ts, i + 1), ts[i];
    assert ts[..i + 1] == ts[..i] + [t];
    ScanSplits(tasks, l, Empty().(progress := false), ts[..i], [t]);
    assert [t][1..] == [];
    NotPlacedYet(tasks, l, ts, i);
    assert |q.rejected| > |p.rejected|;
    assert q.rejected[|p.rejected|].task == t.id;
  }

  lemma SelectedById(ts: seq<Task>, p: Progress, t: Task)
    requires DistinctIds(ts) && t in ts && forall x | x in p.selected :: x in ts
    ensures t in p.selected <==> t.id in Ids(p.selected)
  {
    if t.id in Ids(p.selected) {
      var i :| 0 <= i < |p.selected| && Ids(p.selected)[i] == t.id;
      assert p.selected[i] in ts;
    }
    if t in p.selected {
      var i :| 0 <= i < |p.selected| && p.selected[i] == t;
      assert Ids(p.selected)[i] == t.id;
    }
  }

  // ---- Exactly one place ----

  lemma {:induction false} LeftoverIs(tasks: map<TaskId, Task>, l: Limits, p: Progress, ts: seq<Task>)
    requires DistinctIds(ts)
    ensures var rest := RejectedIds(Leftover(tasks, l, p, ts));
            Distinct(rest) && forall id :: id in rest <==> (exists t | t in ts :: t.id == id) && !Placed(p, id)
    decreases |ts|
  {
    if ts != [] {
      LeftoverIs(tasks, l, p, ts[1..]);
      var tail := Leftover(tasks, l, p, ts[1..]);
      var all := Leftover(tasks, l, p, ts);
      assert ts == [ts[0]] + ts[1..];
      forall t | t in ts[1..] ensures t.id != ts[0].id {
        var i :| 0 < i < |ts| && ts[i] == t;
      }
      if Placed(p, ts[0].id) {
        assert all == tail;
      } else {
        assert RejectedIds(all) == [ts[0].id] + RejectedIds(tail);
      }
    }
  }

  lemma {:induction false} NotCandidatesAre(tasks: map<TaskId, Task>, ids: seq<TaskId>)
    requires Distinct(ids)
    ensures var r := RejectedIds(NotCandidates(tasks, ids));
            Distinct(r) && forall id :: id in r <==> id in ids && (id !in tasks || tasks[id].status != Submitted)
    decreases |ids|
  {
    if ids != [] {
      NotCandidatesAre(tasks, ids[1..]);
      assert ids == [ids[0]] + ids[1..];
      var tail, all := NotCandidates(tasks, ids[1..]), NotCandidates(tasks, ids);
      if ids[0] !in tasks || tasks[ids[0]].status != Submitted {
        assert RejectedIds(all) == [ids[0]] + RejectedIds(tail);
      } else {
        assert all == tail;
      }
    }
  }

  lemma RejectedIdsAppend(a: seq<Rejection>, b: seq<Rejection>)
    ensures RejectedIds(a + b) == RejectedIds(a) + RejectedIds(b)
  {
  }

  lemma DistinctAppend<T>(a: seq<T>, b: seq<T>)
    requires Distinct(a) && Distinct(b) && forall x :: !(x in a && x in b)
    ensures Distinct(a + b)
  {
    forall i, j | 0 <= i < j < |a + b| ensures (a + b)[i] != (a + b)[j] {
      if i < |a| <= j { assert a[i] in a && b[j - |a|] in b; }
    }
  }

  /** Every candidate is selected or rejected, once and not both; every other identifier asked for is
      rejected once; and nothing else is mentioned. */
  lemma EveryTaskHasOnePlace(tasks: map<TaskId, Task>, order: seq<TaskId>, l: Limits, requested: Option<seq<TaskId>>)
    requires Stores(order, tasks)
    ensures var plan := ScheduleTasks(tasks, order, l, requested);
            && Distinct(Ids(plan.selected) + RejectedIds(plan.rejected))
            && forall id :: id in Ids(plan.selected) + RejectedIds(plan.rejected) <==>
                              (id in tasks && Wanted(tasks[id], Wish(requested))) || (requested.Some? && id in requested.value)
  {
    var wish := Wish(requested);
    var ts := Candidates(tasks, order, wish);
    var p := Passes(tasks, l, Empty(), ts);
    CandidatesAre(tasks, order, wish);
    EmptyIsSane(tasks, l, ts);
    PassesSettle(tasks, l, ts, Empty());
    LeftoverIs(tasks, l, p, ts);
    var asked := if requested.Some? then Dedup(requested.value) else [];
    DedupKeepsElements(if requested.Some? then requested.value else []);
    NotCandidatesAre(tasks, asked);
    PlacesJoin(tasks, l, p, ts, wish, NotCandidates(tasks, asked), asked);
  }

  lemma PlacedIsCandidate(tasks: map<TaskId, Task>, l: Limits, p: Progress, ts: seq<Task>, id: TaskId)
    requires Sane(tasks, l, ts, p) && Placed(p, id)
    ensures exists t | t in ts :: t.id == id
  {
    if id in Ids(p.selected) {
      var i :| 0 <= i < |p.selected| && Ids(p.selected)[i] == id;
      assert p.selected[i] in ts;
    } else {
      var i :| 0 <= i < |p.rejected| && RejectedIds(p.rejected)[i] == id;
      assert RejectionJustified(l, p, ts, p.rejected[i]);
    }
  }

  lemma PlacesJoin(tasks: map<TaskId, Task>, l: Limits, p: Progress, ts: seq<Task>, wish: Option<set<TaskId>>,
                   others: seq<Rejection>, asked: seq<TaskId>)
    requires Sane(tasks, l, ts, p) && DistinctIds(ts)
    requires forall x :: x in ts <==> x.id in tasks && tasks[x.id] == x && Wanted(x, wish)
    requires forall id | id in tasks :: tasks[id].id == id
    requires wish.Some? ==> forall id :: id in asked <==> id in wish.value
    requires wish.None? ==> asked == []
    requires Distinct(RejectedIds(others))
    requires forall id :: id in RejectedIds(others) <==> id in asked && (id !in tasks || tasks[id].status != Submitted)
    ensures var all := Ids(p.selected) + RejectedIds(p.rejected + Leftover(tasks, l, p, ts) + others);
            Distinct(all)
            && forall id :: id in all <==> (id in tasks && Wanted(tasks[id], wish)) || (wish.Some? && id in wish.value)
  {
    var left := Leftover(tasks, l, p, ts);
    var candidates := set id | id in tasks && Wanted(tasks[id], wish);
    var placed := Ids(p.selected) + RejectedIds(p.rejected);
    CandidatesSplit(tasks, l, p, ts, wish);
    OthersAreNotCandidates(tasks, wish, RejectedIds(others), asked);
    JoinedIds(p.rejected, left, others, Ids(p.selected));
    ThreeParts(placed, RejectedIds(left), RejectedIds(others), candidates, asked);
  }

  lemma JoinedIds(r: seq<Rejection>, left: seq<Rejection>, others: seq<Rejection>, s: seq<TaskId>)
    ensures s + RejectedIds(r + left + others) == ((s + RejectedIds(r)) + RejectedIds(left)) + RejectedIds(others)
  {
    RejectedIdsAppend(r + left, others);
    RejectedIdsAppend(r, left);
  }

  lemma OthersAreNotCandidates(tasks: map<TaskId, Task>, wish: Option<set<TaskId>>, others: seq<TaskId>, asked: seq<TaskId>)
    requires forall id | id in tasks :: tasks[id].id == id
    requires wish.Some? ==> forall id :: id in asked <==> id in wish.value
    requires wish.None? ==> asked == []
    requires forall id :: id in others <==> id in asked && (id !in tasks || tasks[id].status != Submitted)
    ensures var candidates := set id | id in tasks && Wanted(tasks[id], wish);
            forall id :: id in others <==> id in asked && id !in candidates
  {
    var candidates := set id | id in tasks && Wanted(tasks[id], wish);
    forall id ensures id in others <==> id in asked && id !in candidates {
      if id in asked && id in tasks { assert id in candidates <==> tasks[id].status == Submitted; }
    }
  }

  lemma CandidatesSplit(tasks: map<TaskId, Task>, l: Limits, p: Progress, ts: seq<Task>, wish: Option<set<TaskId>>)
    requires Sane(tasks, l, ts, p) && DistinctIds(ts)
    requires forall x :: x in ts <==> x.id in tasks && tasks[x.id] == x && Wanted(x, wish)
    requires forall id | id in tasks :: tasks[id].id == id
    ensures var candidates := set id | id in tasks && Wanted(tasks[id], wish);
            var placed, rest := Ids(p.selected) + RejectedIds(p.rejected), RejectedIds(Leftover(tasks, l, p, ts));
            Distinct(placed) && Distinct(rest) && Split(placed, rest, candidates)
  {
    CandidatesPlaced(tasks, l, p, ts, wish);
    LeftoverIs(tasks, l, p, ts);
    DistinctAppend(Ids(p.selected), RejectedIds(p.rejected));
    var placed, rest := Ids(p.selected) + RejectedIds(p.rejected), RejectedIds(Leftover(tasks, l, p, ts));
    assert forall id :: id in placed <==> Placed(p, id);
  }

  /** Between them the two lists hold exactly these identifiers, and they share none. */
  ghost predicate Split(a: seq<TaskId>, b: seq<TaskId>, all: set<TaskId>) {
    forall id :: (id in a || id in b <==> id in all) && !(id in a && id in b)
  }

  lemma ThreeParts(a: seq<TaskId>, b: seq<TaskId>, c: seq<TaskId>, candidates: set<TaskId>, asked: seq<TaskId>)
    requires Distinct(a) && Distinct(b) && Distinct(c) && Split(a, b, candidates)
    requires forall id :: id in c <==> id in asked && id !in candidates
    ensures Distinct((a + b) + c)
    ensures forall id :: id in (a + b) + c <==> id in candidates || id in asked
  {
    DistinctAppend(a, b);
    DistinctAppend(a + b, c);
  }

  /** A candidate is placed by the passes or left over, and nothing else is. */
  lemma CandidatesPlaced(tasks: map<TaskId, Task>, l: Limits, p: Progress, ts: seq<Task>, wish: Option<set<TaskId>>)
    requires Sane(tasks, l, ts, p) && DistinctIds(ts)
    requires forall x :: x in ts <==> x.id in tasks && tasks[x.id] == x && Wanted(x, wish)
    requires forall id | id in tasks :: tasks[id].id == id
    ensures forall id :: Placed(p, id) || id in RejectedIds(Leftover(tasks, l, p, ts)) <==> id in tasks && Wanted(tasks[id], wish)
    ensures forall id :: !(Placed(p, id) && id in RejectedIds(Leftover(tasks, l, p, ts)))
  {
    LeftoverIs(tasks, l, p, ts);
    forall id | Placed(p, id) ensures id in tasks && Wanted(tasks[id], wish) { PlacedIsCandidate(tasks, l, p, ts, id); }
    forall id | id in tasks && Wanted(tasks[id], wish)
      ensures id in RejectedIds(Leftover(tasks, l, p, ts)) || Placed(p, id)
    {
      assert tasks[id] in ts;
    }
  }

  // ---- Dependencies ----

  /** An unmerged dependency of a selected task is selected earlier. */
  lemma DependencySelectedEarlier(tasks: map<TaskId, Task>, l: Limits, selected: seq<Task>, i: nat, d: TaskId) returns (j: nat)
    requires DependenciesFirst(tasks, l, selected) && l.requireDependencies
    requires i < |selected| && d in selected[i].dependsOn && !MergedTask(tasks, d)
    ensures j < i && selected[j].id == d
  {
    assert Ready(tasks, l, selected[i], selected[..i]);
    j :| 0 <= j < i && Ids(selected[..i])[j] == d;
  }

  /** Each identifier depends on the next one, and none of them is merged. */
  ghost predicate UnmergedChain(tasks: map<TaskId, Task>, chain: seq<TaskId>) {
    && (forall i | 0 <= i < |chain| :: chain[i] in tasks && tasks[chain[i]].status != Merged)
    && forall i | 0 <= i < |chain| - 1 :: chain[i + 1] in tasks[chain[i]].dependsOn
  }

  lemma {:induction false} ChainGoesEarlier(
    tasks: map<TaskId, Task>, l: Limits, selected: seq<Task>, chain: seq<TaskId>, k: nat, i: nat) returns (j: nat)
    requires DependenciesFirst(tasks, l, selected) && l.requireDependencies
    requires forall t | t in selected :: t.id in tasks && tasks[t.id] == t
    requires UnmergedChain(tasks, chain) && k < |chain| && i < |selected| && selected[i].id == chain[0]
    ensures j + k <= i && selected[j].id == chain[k]
  {
    j := i;
    if k > 0 {
      j := ChainGoesEarlier(tasks, l, selected, chain, k - 1, i);
      assert selected[j] in selected;
      j := DependencySelectedEarlier(tasks, l, selected, j, chain[k]);
    }
  }

  /** So nothing on a dependency cycle of unmerged tasks is ever selected. */
  lemma CyclesAreNeverSelected(tasks: map<TaskId, Task>, order: seq<TaskId>, l: Limits, requested: Option<seq<TaskId>>,
                               cycle: seq<TaskId>)
    requires Stores(order, tasks) && l.requireDependencies
    requires |cycle| > 1 && cycle[0] == cycle[|cycle| - 1] && UnmergedChain(tasks, cycle)
    ensures cycle[0] !in Ids(ScheduleTasks(tasks, order, l, requested).selected)
  {
    var selected := ScheduleTasks(tasks, order, l, requested).selected;
    PlanIsValid(tasks, order, l, requested);
    if i: nat :| i < |selected| && Ids(selected)[i] == cycle[0] {
      var j := ChainGoesEarlier(tasks, l, selected, cycle, |cycle| - 1, i);
    }
  }

  // ---- Conflicts, in terms of paths ----

  lemma {:induction false} FirstSharedIsShared(left: seq<string>, right: seq<string>)
    ensures FirstShared(left, right).Some? <==> exists x :: x in left && x in right
    ensures FirstShared(left, right).Some? ==> FirstShared(left, right).value in left && FirstShared(left, right).value in right
  {
    if left != [] {
      FirstSharedIsShared(left[1..], right);
      assert left == [left[0]] + left[1..];
    }
  }

  /** For paths that name something, two tasks do not collide exactly when they share no path (where
      that matters) and touch no serialized pattern together. */
  lemma CollisionMeansSharing(l: Limits, a: Task, b: Task)
    requires "" !in Normalized(a.receipt.actualPaths)
    ensures Collides(l, a, b) <==>
              (!l.allowPathOverlap
               && exists x :: x in Normalized(a.receipt.actualPaths) && x in Normalized(b.receipt.actualPaths))
              || exists k | 0 <= k < |l.serialized| ::
                   Touches(a.receipt.actualPaths, l.serialized[k]) && Touches(b.receipt.actualPaths, l.serialized[k])
  {
    FirstSharedIsShared(Normalized(a.receipt.actualPaths), Normalized(b.receipt.actualPaths));
  }

  // ---- Pruning ----

  function Without(order: seq<TaskId>, gone: set<TaskId>): seq<TaskId> {
    if order == [] then []
    else if order[|order| - 1] in gone then Without(order[..|order| - 1], gone)
    else Without(order[..|order| - 1], gone) + [order[|order| - 1]]
  }

  lemma {:induction false} WithoutIs(order: seq<TaskId>, gone: set<TaskId>)
    requires Distinct(order)
    ensures Distinct(Without(order, gone)) && forall id :: id in Without(order, gone) <==> id in order && id !in gone
  {
    if order != [] {
      WithoutIs(order[..|order| - 1], gone);
      assert order == order[..|order| - 1] + [order[|order| - 1]];
    }
  }

  /** No dependency a submitted task could look up is gone. */
  ghost predicate SameAnswers(tasks: map<TaskId, Task>, kept: map<TaskId, Task>, ts: seq<Task>) {
    forall t, d | t in ts && d in t.dependsOn :: MergedTask(kept, d) == MergedTask(tasks, d)
  }

  lemma SameConsider(tasks: map<TaskId, Task>, kept: map<TaskId, Task>, l: Limits, ts: seq<Task>, p: Progress, t: Task)
    requires SameAnswers(tasks, kept, ts) && t in ts
    ensures Consider(kept, l, p, t) == Consider(tasks, l, p, t)
  {
    assert Ready(kept, l, t, p.selected) == Ready(tasks, l, t, p.selected);
  }

  lemma {:induction false} SameScan(
    tasks: map<TaskId, Task>, kept: map<TaskId, Task>, l: Limits, ts: seq<Task>, p: Progress, rest: seq<Task>)
    requires SameAnswers(tasks, kept, ts) && forall t | t in rest :: t in ts
    ensures Scan(kept, l, p, rest) == Scan(tasks, l, p, rest)
    decreases |rest|
  {
    if rest != [] && |p.selected| < l.maxTasks {
      assert rest[0] in rest;
      SameConsider(tasks, kept, l, ts, p, rest[0]);
      SameScan(tasks, kept, l, ts, Consider(tasks, l, p, rest[0]), rest[1..]);
    }
  }

  lemma {:induction false} SamePasses(
    tasks: map<TaskId, Task>, kept: map<TaskId, Task>, l: Limits, ts: seq<Task>, p: Progress)
    requires SameAnswers(tasks, kept, ts)
    ensures Passes(kept, l, p, ts) == Passes(tasks, l, p, ts)
    decreases l.maxTasks - |p.selected|
  {
    if |p.selected| < l.maxTasks {
      SameScan(tasks, kept, l, ts, p.(progress := false), ts);
      ScanGrows(tasks, l, p.(progress := false), ts);
      var q := Scan(tasks, l, p.(progress := false), ts);
      if q.progress { SamePasses(tasks, kept, l, ts, q); }
    }
  }

  lemma {:induction false} SameMissing(tasks: map<TaskId, Task>, kept: map<TaskId, Task>, selected: seq<Task>, deps: seq<TaskId>)
    requires forall d | d in deps :: MergedTask(kept, d) == MergedTask(tasks, d)
    ensures Missing(kept, selected, deps) == Missing(tasks, selected, deps)
  {
    if deps != [] {
      assert deps[0] in deps;
      SameMissing(tasks, kept, selected, deps[1..]);
    }
  }

  lemma {:induction false} SameLeftover(
    tasks: map<TaskId, Task>, kept: map<TaskId, Task>, l: Limits, ts: seq<Task>, p: Progress, rest: seq<Task>)
    requires SameAnswers(tasks, kept, ts) && forall t | t in rest :: t in ts
    ensures Leftover(kept, l, p, rest) == Leftover(tasks, l, p, rest)
  {
    if rest != [] {
      assert rest[0] in rest;
      SameMissing(tasks, kept, p.selected, rest[0].dependsOn);
      SameLeftover(tasks, kept, l, ts, p, rest[1..]);
    }
  }

  lemma PruningKeepsCandidates(tasks: map<TaskId, Task>, batches: map<BatchId, Batch>, cutoff: Instant,
                               order: seq<TaskId>, wish: Option<set<TaskId>>)
    requires Stores(order, tasks)
    ensures var gone := Pruning.PrunedTasks(tasks, batches, cutoff);
            Stores(Without(order, gone), tasks - gone)
            && Candidates(tasks - gone, Without(order, gone), wish) == Candidates(tasks, order, wish)
            && SameAnswers(tasks, tasks - gone, Candidates(tasks, order, wish))
  {
    var gone := Pruning.PrunedTasks(tasks, batches, cutoff);
    var kept := tasks - gone;
    WithoutIs(order, gone);
    CandidatesAre(tasks, order, wish);
    CandidatesAre(kept, Without(order, gone), wish);
    var ts := Candidates(tasks, order, wish);
    assert forall x | Wanted(x, wish) && x.id in gone :: tasks[x.id] != x;
    SortedIsUnique(Candidates(kept, Without(order, gone), wish), ts);
    forall t, d | t in ts && d in t.dependsOn ensures MergedTask(kept, d) == MergedTask(tasks, d) {
      Pruning.RetainedTaskKeepsItsDependencies(tasks, batches, cutoff, t.id, d);
    }
  }

  /** Retiring completed records is invisible to the planner: the same tasks are selected, with the
      same total, and without a request for particular tasks every rejection is the same too. */
  lemma PruningIsInvisible(tasks: map<TaskId, Task>, batches: map<BatchId, Batch>, cutoff: Instant,
                           order: seq<TaskId>, l: Limits, requested: Option<seq<TaskId>>)
    requires Stores(order, tasks)
    ensures var gone := Pruning.PrunedTasks(tasks, batches, cutoff);
            var before := ScheduleTasks(tasks, order, l, requested);
            Stores(Without(order, gone), tasks - gone)
            && var after := ScheduleTasks(tasks - gone, Without(order, gone), l, requested);
               after.selected == before.selected && after.total == before.total
               && (requested.None? ==> after.rejected == before.rejected)
  {
    var gone := Pruning.PrunedTasks(tasks, batches, cutoff);
    var wish := Wish(requested);
    var ts := Candidates(tasks, order, wish);
    PruningKeepsCandidates(tasks, batches, cutoff, order, wish);
    SamePasses(tasks, tasks - gone, l, ts, Empty());
    SameLeftover(tasks, tasks - gone, l, ts, Passes(tasks, l, Empty(), ts), ts);
  }
}
