/**
 The lock protocol (src/store.ts): a directory that an atomic rename puts in place, owners named by
 nonces that are never reused, a holder proven dead moved aside to a tombstone named after it, any
 process crashing at any point, and any reclaimer delayed for as long as it likes between its proof
 and its rename.

 Reading an owner and proving its process gone is one step. `keep` says whether tombstones stay,
 which is what the broker does; the last run shows what happens if they do not.
 */
module Locks {
  import opened Common

  type Nonce = nat
  type Pid = nat

  datatype Phase =
    | Trying                 // building its candidate directory, or waiting for another turn
    | Proved(owner: Nonce)   // found the lock owned by `owner`, whose process is gone
    | MovedAside(owner: Nonce)
    | Inside
    | Leaving                // found its own nonce in the lock, about to move it away
    | Retired
    | Finished

  datatype Attempt = Attempt(pid: Pid, phase: Phase)

  /** `tombs` and `retired` map the nonce in a directory's name to the owner recorded inside it. */
  datatype World = World(
    lock: Option<Nonce>,
    tombs: map<Nonce, Nonce>,
    retired: map<Nonce, Nonce>,
    attempts: map<Nonce, Attempt>,
    dead: set<Pid>,
    keep: bool)

  datatype Step =
    | Begin(nonce: Nonce, pid: Pid)
    | Acquire(nonce: Nonce)
    | Prove(nonce: Nonce)
    | Reclaim(nonce: Nonce)
    | CheckReclaimed(nonce: Nonce)
    | CheckOwner(nonce: Nonce)
    | Retire(nonce: Nonce)
    | CheckRetired(nonce: Nonce)
    | GiveUp(nonce: Nonce)
    | Crash(pid: Pid)

  predicate Alive(w: World, n: Nonce) {
    n in w.attempts && w.attempts[n].pid !in w.dead
  }

  predicate In(w: World, n: Nonce, phase: Phase) {
    Alive(w, n) && w.attempts[n].phase == phase
  }

  function Enter(w: World, n: Nonce, phase: Phase): World
    requires n in w.attempts
  {
    w.(attempts := w.attempts[n := w.attempts[n].(phase := phase)])
  }

  /** One step of one process, or a crash. A step that is not enabled does not happen. */
  function Apply(w: World, step: Step): Option<World> {
    match step
    case Begin(n, pid) =>
      if n in w.attempts || pid in w.dead then None else Some(w.(attempts := w.attempts[n := Attempt(pid, Trying)]))
    case Acquire(n) =>
      // The rename onto an existing, non-empty directory fails.
      if !In(w, n, Trying) || w.lock.Some? then None else Some(Enter(w, n, Inside).(lock := Some(n)))
    case Prove(n) =>
      if !In(w, n, Trying) || w.lock.None? || w.lock.value !in w.attempts || Alive(w, w.lock.value) then None
      else Some(Enter(w, n, Proved(w.lock.value)))
    case Reclaim(n) =>
      if !Alive(w, n) || !w.attempts[n].phase.Proved? then None
      else
        var owner := w.attempts[n].phase.owner;
        if w.lock.None? || owner in w.tombs then Some(Enter(w, n, Trying))
        else Some(Enter(w, n, MovedAside(owner)).(lock := None, tombs := w.tombs[owner := w.lock.value]))
    case CheckReclaimed(n) =>
      if !Alive(w, n) || !w.attempts[n].phase.MovedAside? then None
      else
        var owner := w.attempts[n].phase.owner;
        if owner in w.tombs && w.tombs[owner] == owner then
          Some(Enter(w, n, Trying).(tombs := if w.keep then w.tombs else w.tombs - {owner}))
        else if owner in w.tombs && w.lock.None? then
          Some(Enter(w, n, Trying).(lock := Some(w.tombs[owner]), tombs := w.tombs - {owner}))
        else Some(Enter(w, n, Trying))
    case CheckOwner(n) =>
      if !In(w, n, Inside) then None else Some(Enter(w, n, if w.lock == Some(n) then Leaving else Finished))
    case Retire(n) =>
      if !In(w, n, Leaving) then None
      else if w.lock.None? then Some(Enter(w, n, Finished))
      else Some(Enter(w, n, Retired).(lock := None, retired := w.retired[n := w.lock.value]))
    case CheckRetired(n) =>
      if !In(w, n, Retired) || n !in w.retired then None
      else if w.retired[n] != n && w.lock.None? then
        Some(Enter(w, n, Finished).(lock := Some(w.retired[n]), retired := w.retired - {n}))
      else Some(Enter(w, n, Finished).(retired := w.retired - {n}))
    case GiveUp(n) => if !In(w, n, Trying) then None else Some(Enter(w, n, Finished))
    case Crash(pid) => Some(w.(dead := w.dead + {pid}))
  }

  function Initial(keep: bool): World {
    World(None, map[], map[], map[], {}, keep)
  }

  ghost predicate Run(keep: bool, worlds: seq<World>, steps: seq<Step>) {
    |worlds| == |steps| + 1 && worlds[0] == Initial(keep)
    && forall i | 0 <= i < |steps| :: Apply(worlds[i], steps[i]) == Some(worlds[i + 1])
  }

  // ---- The invariant ----

  predicate Holding(w: World, n: Nonce) {
    n in w.attempts && (w.attempts[n].phase == Inside || w.attempts[n].phase == Leaving)
  }

  /** Whoever is proven dead is still in the lock, or behind a tombstone of its own name. */
  ghost predicate ProofsHold(w: World) {
    forall n | n in w.attempts && w.attempts[n].phase.Proved? ::
      var owner := w.attempts[n].phase.owner;
      owner in w.attempts && !Alive(w, owner) && (w.lock == Some(owner) || owner in w.tombs)
  }

  ghost predicate Safe(w: World) {
    && w.keep
    && (w.lock.Some? ==> Holding(w, w.lock.value) && w.lock.value !in w.tombs)
    && (forall n: Nonce | Holding(w, n) && Alive(w, n) :: w.lock == Some(n))
    && (forall n | n in w.tombs :: w.tombs[n] == n && n in w.attempts && !Alive(w, n))
    && (forall n | n in w.attempts && w.attempts[n].phase.MovedAside? :: w.attempts[n].phase.owner in w.tombs)
    && (forall n | n in w.retired :: w.retired[n] == n)
    && ProofsHold(w)
  }

  lemma TryingIsSafe(w: World, step: Step)
    requires Safe(w) && (step.Begin? || step.Acquire? || step.Prove? || step.GiveUp? || step.Crash?)
    ensures Apply(w, step).Some? ==> Safe(Apply(w, step).value)
  {
  }

  /** A delayed reclaimer either finds its tombstone taken or moves the very owner it proved dead. */
  lemma ReclaimIsSafe(w: World, n: Nonce)
    requires Safe(w)
    ensures Apply(w, Reclaim(n)).Some? ==> Safe(Apply(w, Reclaim(n)).value)
  {
    if Alive(w, n) && w.attempts[n].phase.Proved? && w.lock.Some? && w.attempts[n].phase.owner !in w.tombs {
      assert w.lock == Some(w.attempts[n].phase.owner);
    }
  }

  lemma CheckReclaimedIsSafe(w: World, n: Nonce)
    requires Safe(w)
    ensures Apply(w, CheckReclaimed(n)).Some? ==> Safe(Apply(w, CheckReclaimed(n)).value)
  {
  }

  lemma ReleaseIsSafe(w: World, step: Step)
    requires Safe(w) && (step.CheckOwner? || step.Retire? || step.CheckRetired?)
    ensures Apply(w, step).Some? ==> Safe(Apply(w, step).value)
  {
  }

  lemma StepIsSafe(w: World, step: Step)
    requires Safe(w)
    ensures Apply(w, step).Some? ==> Safe(Apply(w, step).value)
  {
    match step
    case Reclaim(n) => ReclaimIsSafe(w, n);
    case CheckReclaimed(n) => CheckReclaimedIsSafe(w, n);
    case CheckOwner(_) => ReleaseIsSafe(w, step);
    case Retire(_) => ReleaseIsSafe(w, step);
    case CheckRetired(_) => ReleaseIsSafe(w, step);
    case _ => TryingIsSafe(w, step);
  }

  lemma {:induction false} RunIsSafe(worlds: seq<World>, steps: seq<Step>, k: nat)
    requires Run(true, worlds, steps) && k < |worlds|
    ensures Safe(worlds[k])
  {
    if k > 0 {
      RunIsSafe(worlds, steps, k - 1);
      StepIsSafe(worlds[k - 1], steps[k - 1]);
    }
  }

  /** In every interleaving a live process inside a locked operation finds its own nonce in the lock,
      which is what `assertLockOwned` checks; so two live processes are never inside together. */
  lemma LiveHolderOwnsTheLock(worlds: seq<World>, steps: seq<Step>, k: nat, n: Nonce)
    requires Run(true, worlds, steps) && k < |worlds| && In(worlds[k], n, Inside)
    ensures worlds[k].lock == Some(n)
    ensures forall m: Nonce | In(worlds[k], m, Inside) :: m == n
  {
    RunIsSafe(worlds, steps, k);
    assert Holding(worlds[k], n);
    forall m: Nonce | In(worlds[k], m, Inside) ensures m == n { assert Holding(worlds[k], m); }
  }

  /** Nobody's lock is ever moved aside while its process lives, and nobody restores one. */
  lemma OnlyTheDeadAreReclaimed(worlds: seq<World>, steps: seq<Step>, k: nat, n: Nonce)
    requires Run(true, worlds, steps) && k < |steps| && steps[k] == Reclaim(n)
    ensures worlds[k].lock.Some? && worlds[k + 1].lock.None? ==> !Alive(worlds[k], worlds[k].lock.value)
  {
    RunIsSafe(worlds, steps, k);
  }

  /** A crashed holder does not block the lock: any waiting process can take it in four steps. */
  lemma CrashedLockIsRecoverable(w: World, n: Nonce)
    requires Safe(w) && In(w, n, Trying) && w.lock.Some? && !Alive(w, w.lock.value)
    ensures var w1 := Apply(w, Prove(n));
            w1.Some? && var w2 := Apply(w1.value, Reclaim(n));
            w2.Some? && var w3 := Apply(w2.value, CheckReclaimed(n));
            w3.Some? && var w4 := Apply(w3.value, Acquire(n));
            w4.Some? && w4.value.lock == Some(n) && In(w4.value, n, Inside)
  {
    var w1 := Apply(w, Prove(n)).value;
    var w2 := Apply(w1, Reclaim(n)).value;
    assert w2.lock.None? && w2.tombs[w.lock.value] == w.lock.value;
  }

  /** A live holder leaves in three steps, after which the lock is free and nothing else has changed. */
  lemma LiveHolderReleases(w: World, n: Nonce)
    requires Safe(w) && In(w, n, Inside)
    ensures var w1 := Apply(w, CheckOwner(n));
            w1.Some? && var w2 := Apply(w1.value, Retire(n));
            w2.Some? && w2.value.lock == None
            && var w3 := Apply(w2.value, CheckRetired(n));
            w3.Some? && w3.value.lock == None && n in w3.value.attempts && w3.value.attempts[n] == Attempt(w.attempts[n].pid, Finished)
            && w3.value.attempts.Keys == w.attempts.Keys
            && (forall m | m in w.attempts && m != n :: w3.value.attempts[m] == w.attempts[m])
            && w3.value.tombs == w.tombs && w3.value.dead == w.dead && w3.value.retired == w.retired - {n}
  {
    assert Holding(w, n);
    var w2 := Apply(Apply(w, CheckOwner(n)).value, Retire(n)).value;
    assert w2.retired[n] == n;
    assert w2.retired - {n} == w.retired - {n};
  }

  /** A free lock goes to whoever asks, and a held one to nobody. */
  lemma LockIsTakenExactlyWhenFree(w: World, n: Nonce)
    requires In(w, n, Trying)
    ensures Apply(w, Acquire(n)).Some? <==> w.lock == None
    ensures w.lock == None ==> Apply(w, Acquire(n)).value.lock == Some(n) && In(Apply(w, Acquire(n)).value, n, Inside)
  {
  }

  /** In every interleaving a lock becomes free only because its live holder leaves, or because its owner is dead
      and has been moved aside; and it passes to nobody without having been free. */
  lemma LockIsFreedOnlyBy(worlds: seq<World>, steps: seq<Step>, k: nat)
    requires Run(true, worlds, steps) && k < |steps| && worlds[k].lock.Some? && worlds[k + 1].lock != worlds[k].lock
    ensures worlds[k + 1].lock == None
    ensures var owner := worlds[k].lock.value;
            steps[k] == Retire(owner) || (steps[k].Reclaim? && !Alive(worlds[k], owner))
  {
    RunIsSafe(worlds, steps, k);
    var w := worlds[k];
    assert Apply(w, steps[k]) == Some(worlds[k + 1]);
    if steps[k].Retire? { assert Holding(w, steps[k].nonce); }
  }

  // ---- Why tombstones are kept ----

  /** Processes 1 to 4 with nonces 1 to 4. Two reclaimers prove the first holder dead; the second is
      late, and with its tombstone gone it moves the lock of the first reclaimer, who is inside. */
  function LateReclaim(): seq<Step> {
    [Begin(1, 1), Begin(2, 2), Begin(3, 3), Begin(4, 4), Acquire(1), Crash(1), Prove(2), Prove(3),
     Reclaim(2), CheckReclaimed(2), Acquire(2), Reclaim(3), Acquire(4)]
  }

  function Crew(p1: Phase, p2: Phase, p3: Phase, p4: Phase): map<Nonce, Attempt> {
    map[1 := Attempt(1, p1), 2 := Attempt(2, p2), 3 := Attempt(3, p3), 4 := Attempt(4, p4)]
  }

  function LateReclaimWorlds(): seq<World> {
    [Initial(false),
     World(None, map[], map[], map[1 := Attempt(1, Trying)], {}, false),
     World(None, map[], map[], map[1 := Attempt(1, Trying), 2 := Attempt(2, Trying)], {}, false),
     World(None, map[], map[], map[1 := Attempt(1, Trying), 2 := Attempt(2, Trying), 3 := Attempt(3, Trying)], {}, false),
     World(None, map[], map[], Crew(Trying, Trying, Trying, Trying), {}, false),
     World(Some(1), map[], map[], Crew(Inside, Trying, Trying, Trying), {}, false),
     World(Some(1), map[], map[], Crew(Inside, Trying, Trying, Trying), {1}, false),
     World(Some(1), map[], map[], Crew(Inside, Proved(1), Trying, Trying), {1}, false),
     World(Some(1), map[], map[], Crew(Inside, Proved(1), Proved(1), Trying), {1}, false),
     World(None, map[1 := 1], map[], Crew(Inside, MovedAside(1), Proved(1), Trying), {1}, false),
     World(None, map[], map[], Crew(Inside, Trying, Proved(1), Trying), {1}, false),
     World(Some(2), map[], map[], Crew(Inside, Inside, Proved(1), Trying), {1}, false),
     World(None, map[1 := 2], map[], Crew(Inside, Inside, MovedAside(1), Trying), {1}, false),
     World(Some(4), map[1 := 2], map[], Crew(Inside, Inside, MovedAside(1), Inside), {1}, false)]
  }

  lemma FirstChanges(p1: Phase, p2: Phase, p3: Phase, p4: Phase, q: Phase)
    ensures Crew(p1, p2, p3, p4)[1 := Attempt(1, q)] == Crew(q, p2, p3, p4)
  {
  }

  lemma SecondChanges(p1: Phase, p2: Phase, p3: Phase, p4: Phase, q: Phase)
    ensures Crew(p1, p2, p3, p4)[2 := Attempt(2, q)] == Crew(p1, q, p3, p4)
  {
  }

  lemma ThirdChanges(p1: Phase, p2: Phase, p3: Phase, p4: Phase, q: Phase)
    ensures Crew(p1, p2, p3, p4)[3 := Attempt(3, q)] == Crew(p1, p2, q, p4)
  {
  }

  lemma FourthChanges(p1: Phase, p2: Phase, p3: Phase, p4: Phase, q: Phase)
    ensures Crew(p1, p2, p3, p4)[4 := Attempt(4, q)] == Crew(p1, p2, p3, q)
  {
  }

  /** Without the tombstone two live processes are inside the lock together. */
  lemma WithoutTombstonesTwoEnter()
    ensures Run(false, LateReclaimWorlds(), LateReclaim())
    ensures In(LateReclaimWorlds()[13], 2, Inside) && In(LateReclaimWorlds()[13], 4, Inside)
  {
    FirstHalf();
    SecondHalf();
  }

  lemma FirstHalf()
    ensures forall i | 0 <= i < 8 :: Apply(LateReclaimWorlds()[i], LateReclaim()[i]) == Some(LateReclaimWorlds()[i + 1])
  {
    FourBegin();
    OneHolds();
  }

  lemma FourBegin()
    ensures forall i | 0 <= i < 4 :: Apply(LateReclaimWorlds()[i], LateReclaim()[i]) == Some(LateReclaimWorlds()[i + 1])
  {
    var none: map<Nonce, Attempt> := map[];
    var t := Trying;
    assert none[1 := Attempt(1, t)] == map[1 := Attempt(1, t)];
    assert map[1 := Attempt(1, t)][2 := Attempt(2, t)] == map[1 := Attempt(1, t), 2 := Attempt(2, t)];
  }

  lemma OneHolds()
    ensures forall i | 4 <= i < 8 :: Apply(LateReclaimWorlds()[i], LateReclaim()[i]) == Some(LateReclaimWorlds()[i + 1])
  {
    FirstChanges(Trying, Trying, Trying, Trying, Inside);
    SecondChanges(Inside, Trying, Trying, Trying, Proved(1));
    ThirdChanges(Inside, Proved(1), Trying, Trying, Proved(1));
    assert {} + {1} == {1};
  }

  lemma SecondHalf()
    ensures forall i | 8 <= i < 13 :: Apply(LateReclaimWorlds()[i], LateReclaim()[i]) == Some(LateReclaimWorlds()[i + 1])
  {
    FirstReclaims();
    SecondReclaims();
  }

  /** The first reclaimer moves the dead holder aside, drops its tombstone, and goes inside. */
  lemma FirstReclaims()
    ensures forall i | 8 <= i < 11 :: Apply(LateReclaimWorlds()[i], LateReclaim()[i]) == Some(LateReclaimWorlds()[i + 1])
  {
    SecondChanges(Inside, Proved(1), Proved(1), Trying, MovedAside(1));
    SecondChanges(Inside, MovedAside(1), Proved(1), Trying, Trying);
    SecondChanges(Inside, Trying, Proved(1), Trying, Inside);
    var none: map<Nonce, Nonce> := map[];
    assert none[1 := 1] == map[1 := 1] && map[1 := 1] - {1} == none;
  }

  /** The second, late, moves the first one's lock aside, and another process acquires. */
  lemma SecondReclaims()
    ensures forall i | 11 <= i < 13 :: Apply(LateReclaimWorlds()[i], LateReclaim()[i]) == Some(LateReclaimWorlds()[i + 1])
  {
    ThirdChanges(Inside, Inside, Proved(1), Trying, MovedAside(1));
    FourthChanges(Inside, Inside, MovedAside(1), Trying, Inside);
    var none: map<Nonce, Nonce> := map[];
    assert none[1 := 2] == map[1 := 2];
  }

  /** With it, a reclaimer that comes too late, when the owner it proved dead is no longer in the lock,
      goes back to trying and changes nothing else, whoever is in the lock by then. */
  lemma KeptTombstoneStopsTheLateReclaimer(w: World, n: Nonce)
    requires Safe(w) && Alive(w, n) && w.attempts[n].phase.Proved? && w.lock != Some(w.attempts[n].phase.owner)
    ensures Apply(w, Reclaim(n)) == Some(Enter(w, n, Trying))
  {
    assert w.attempts[n].phase.owner in w.tombs;
  }
}
