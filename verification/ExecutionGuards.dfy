/**
 Validator commands may outlive the broker that started them (src/execution-guard.ts). A command is
 handed to its supervisor only after a guard file for it is durable, and the file goes only when the
 command's process group is gone or its Windows job was recorded empty. The next holder of the
 integration lock reads the directory until nothing is pending before it begins.

 That one live process at a time holds the lock is what module Locks proves; here a crashed holder's
 lock is simply taken over.
 */
module ExecutionGuards {
  import opened Common

  type Holder = nat
  type CommandId = nat

  datatype Kind = ProcessGroup | WindowsJob

  /** `Waiting`: the supervisor is up and holds no command yet. `Over`: every process is gone. */
  datatype CommandPhase = Waiting | Running | Over

  datatype Command = Command(holder: Holder, kind: Kind, phase: CommandPhase, registered: bool)

  /** A pass over the directory: what it listed and has not examined, and whether all was finished so far. */
  datatype Stage =
    | Between
    | Scanning(todo: set<CommandId>, clean: bool)
    | Operating

  datatype World = World(
    holder: Option<Holder>,
    stage: Stage,
    crashed: set<Holder>,
    commands: map<CommandId, Command>,
    guards: set<CommandId>,
    markers: set<CommandId>)

  datatype Step =
    | TakeLock(h: Holder)
    | ListGuards
    | ExamineGuard(c: CommandId)
    | FinishPass
    | Spawn(c: CommandId, kind: Kind)
    | Register(c: CommandId)
    | HandOff(c: CommandId)
    | SupervisorGone(c: CommandId)
    | CommandEnds(c: CommandId)
    | RecordEmptyJob(c: CommandId)
    | RetireGuard(c: CommandId)
    | ReleaseLock
    | Crash

  predicate HolderLives(w: World) {
    w.holder.Some? && w.holder.value !in w.crashed
  }

  predicate Operation(w: World) {
    HolderLives(w) && w.stage.Operating?
  }

  /** `executionFinished`: a probe of the group, or the marker the supervisor left. */
  predicate Finished(w: World, c: CommandId) {
    c in w.commands
    && match w.commands[c].kind
       case ProcessGroup => w.commands[c].phase == Over
       case WindowsJob => c in w.markers
  }

  function Update(w: World, c: CommandId, k: Command): World {
    w.(commands := w.commands[c := k])
  }

  /** Every command of this holder has either been handed over or will never be. */
  predicate Settled(w: World, h: Holder) {
    forall c | c in w.commands && w.commands[c].holder == h :: w.commands[c].phase != Waiting
  }

  function Apply(w: World, step: Step): Option<World> {
    match step
    case TakeLock(h) =>
      if HolderLives(w) || h in w.crashed || (exists c | c in w.commands :: w.commands[c].holder == h) then None
      else Some(w.(holder := Some(h), stage := Between))
    case ListGuards =>
      if !HolderLives(w) || !w.stage.Between? then None else Some(w.(stage := Scanning(w.guards, true)))
    case ExamineGuard(c) =>
      if !HolderLives(w) || !w.stage.Scanning? || c !in w.stage.todo then None
      else
        var todo := w.stage.todo - {c};
        if Finished(w, c) then Some(w.(stage := Scanning(todo, w.stage.clean), guards := w.guards - {c}, markers := w.markers - {c}))
        else Some(w.(stage := Scanning(todo, false)))
    case FinishPass =>
      if !HolderLives(w) || !w.stage.Scanning? || w.stage.todo != {} then None
      else Some(w.(stage := if w.stage.clean then Operating else Between))
    case Spawn(c, kind) =>
      if !Operation(w) || c in w.commands then None
      else Some(Update(w, c, Command(w.holder.value, kind, Waiting, false)))
    case Register(c) =>
      if !Operation(w) || c !in w.commands || w.commands[c] != Command(w.holder.value, w.commands[c].kind, Waiting, false) then None
      else Some(Update(w, c, w.commands[c].(registered := true)).(guards := w.guards + {c}))
    case HandOff(c) =>
      if !Operation(w) || c !in w.commands || w.commands[c] != Command(w.holder.value, w.commands[c].kind, Waiting, true) then None
      else Some(Update(w, c, w.commands[c].(phase := Running)))
    case SupervisorGone(c) =>
      // A supervisor that exits, or loses its broker, before the handoff runs nothing.
      if c !in w.commands || w.commands[c].phase != Waiting then None
      else Some(Update(w, c, w.commands[c].(phase := Over)))
    case CommandEnds(c) =>
      if c !in w.commands || w.commands[c].phase != Running then None
      else Some(Update(w, c, w.commands[c].(phase := Over)))
    case RecordEmptyJob(c) =>
      if c !in w.commands || w.commands[c].kind != WindowsJob || w.commands[c].phase != Over || !w.commands[c].registered then None
      else Some(w.(markers := w.markers + {c}))
    case RetireGuard(c) =>
      if !Operation(w) || c !in w.guards || !Finished(w, c) then None
      else Some(w.(guards := w.guards - {c}, markers := w.markers - {c}))
    case ReleaseLock =>
      // The call that ran a command returns only when its supervisor closed, so nothing is half started.
      if !HolderLives(w) || !Settled(w, w.holder.value) then None else Some(w.(holder := None, stage := Between))
    case Crash =>
      if w.holder.None? then None else Some(w.(crashed := w.crashed + {w.holder.value}))
  }

  function Initial(): World {
    World(None, Between, {}, map[], {}, {})
  }

  ghost predicate Run(worlds: seq<World>, steps: seq<Step>) {
    |worlds| == |steps| + 1 && worlds[0] == Initial()
    && forall i | 0 <= i < |steps| :: Apply(worlds[i], steps[i]) == Some(worlds[i + 1])
  }

  // ---- The invariant ----

  predicate RunningNow(w: World, c: CommandId) {
    c in w.commands && w.commands[c].phase == Running
  }

  ghost predicate Guarded(w: World) {
    && (forall c | c in w.commands && w.commands[c].phase != Over && w.commands[c].registered :: c in w.guards)
    && (forall c | c in w.commands && w.commands[c].phase == Running :: w.commands[c].registered)
    && (forall c | c in w.markers :: c in w.commands && w.commands[c].phase == Over)
    && (forall c | c in w.guards :: c in w.commands && w.commands[c].registered)
    // A command waiting for its handoff, and not given up on, is the present operation's own.
    && (forall c | c in w.commands && w.commands[c].phase == Waiting && w.commands[c].holder !in w.crashed ::
          w.holder == Some(w.commands[c].holder) && w.stage.Operating?)
    // A pass that is clean so far has yet to examine every guard there is.
    && (HolderLives(w) && w.stage.Scanning? && w.stage.clean ==> w.guards <= w.stage.todo)
    // While an operation runs, whatever is running is its own.
    && (Operation(w) ==> forall c | RunningNow(w, c) :: w.commands[c].holder == w.holder.value)
  }

  lemma ScanSteps(w: World, step: Step)
    requires Guarded(w) && (step.TakeLock? || step.ListGuards? || step.ExamineGuard? || step.FinishPass? || step.ReleaseLock?)
    ensures Apply(w, step).Some? ==> Guarded(Apply(w, step).value)
  {
  }

  lemma CommandSteps(w: World, step: Step)
    requires Guarded(w)
    requires step.Spawn? || step.Register? || step.HandOff? || step.SupervisorGone? || step.CommandEnds?
    ensures Apply(w, step).Some? ==> Guarded(Apply(w, step).value)
  {
  }

  lemma GuardSteps(w: World, step: Step)
    requires Guarded(w) && (step.RecordEmptyJob? || step.RetireGuard? || step.Crash?)
    ensures Apply(w, step).Some? ==> Guarded(Apply(w, step).value)
  {
  }

  lemma {:induction false} RunIsGuarded(worlds: seq<World>, steps: seq<Step>, k: nat)
    requires Run(worlds, steps) && k < |worlds|
    ensures Guarded(worlds[k])
  {
    if k > 0 {
      RunIsGuarded(worlds, steps, k - 1);
      var w, step := worlds[k - 1], steps[k - 1];
      if step.TakeLock? || step.ListGuards? || step.ExamineGuard? || step.FinishPass? || step.ReleaseLock? { ScanSteps(w, step); }
      else if step.RecordEmptyJob? || step.RetireGuard? || step.Crash? { GuardSteps(w, step); }
      else { CommandSteps(w, step); }
    }
  }

  predicate NothingRuns(w: World) {
    forall c | c in w.commands :: !RunningNow(w, c)
  }

  /** When an operation begins no registered command is alive, whoever started it and however it ended. */
  lemma OperationBeginsAlone(worlds: seq<World>, steps: seq<Step>, k: nat)
    requires Run(worlds, steps) && k < |steps| && !Operation(worlds[k]) && Operation(worlds[k + 1])
    ensures NothingRuns(worlds[k + 1])
    ensures worlds[k + 1].guards == {}
  {
    RunIsGuarded(worlds, steps, k);
    RunIsGuarded(worlds, steps, k + 1);
  }

  /** And while it runs no command of an earlier holder is, or ever starts. */
  lemma OperationRunsAlone(worlds: seq<World>, steps: seq<Step>, k: nat, c: CommandId)
    requires Run(worlds, steps) && k < |worlds| && Operation(worlds[k]) && RunningNow(worlds[k], c)
    ensures worlds[k].commands[c].holder == worlds[k].holder.value && c in worlds[k].guards
  {
    RunIsGuarded(worlds, steps, k);
  }

  /** A guard file goes only when nothing of its command is left. */
  lemma GuardOutlivesItsCommand(worlds: seq<World>, steps: seq<Step>, k: nat, c: CommandId)
    requires Run(worlds, steps) && k < |steps| && c in worlds[k].guards && c !in worlds[k + 1].guards
    ensures c in worlds[k].commands && worlds[k].commands[c].phase == Over
  {
    RunIsGuarded(worlds, steps, k);
  }

  /** Steps that follow one another. */
  ghost predicate Leads(worlds: seq<World>, steps: seq<Step>) {
    |worlds| == |steps| + 1 && forall i | 0 <= i < |steps| :: Apply(worlds[i], steps[i]) == Some(worlds[i + 1])
  }

  lemma LeadsOn(w: World, step: Step, worlds: seq<World>, steps: seq<Step>)
    requires Leads(worlds, steps) && Apply(w, step) == Some(worlds[0])
    ensures Leads([w] + worlds, [step] + steps)
  {
    var all, more := [w] + worlds, [step] + steps;
    forall i | 0 <= i < |more| ensures Apply(all[i], more[i]) == Some(all[i + 1]) {
      if i > 0 { assert all[i] == worlds[i - 1] && more[i] == steps[i - 1]; }
    }
  }

  ghost predicate AllFinished(w: World) {
    forall c | c in w.guards :: Finished(w, c)
  }

  lemma {:induction false} CleanScanLetsIn(w: World) returns (worlds: seq<World>, steps: seq<Step>)
    requires HolderLives(w) && w.stage.Scanning? && w.stage.clean && w.guards == w.stage.todo && AllFinished(w)
    ensures Leads(worlds, steps) && worlds[0] == w
    ensures Operation(worlds[|steps|]) && worlds[|steps|].guards == {} && worlds[|steps|].commands == w.commands
    decreases w.stage.todo
  {
    if w.stage.todo == {} {
      worlds, steps := [w, w.(stage := Operating)], [FinishPass];
    } else {
      var c :| c in w.stage.todo;
      var t := Apply(w, ExamineGuard(c)).value;
      assert forall d | d in t.guards :: Finished(w, d);
      var rest, more := CleanScanLetsIn(t);
      LeadsOn(w, ExamineGuard(c), rest, more);
      worlds, steps := [w] + rest, [ExamineGuard(c)] + more;
    }
  }

  /** Guards do not outlast their commands for long: once every command is over and known to be, a holder of the lock
      gets through in one pass, and leaves no guard behind. */
  lemma FinishedGuardsLetIn(w: World) returns (worlds: seq<World>, steps: seq<Step>)
    requires HolderLives(w) && w.stage.Between? && AllFinished(w)
    ensures Leads(worlds, steps) && worlds[0] == w
    ensures Operation(worlds[|steps|]) && worlds[|steps|].guards == {} && worlds[|steps|].commands == w.commands
  {
    var t := Apply(w, ListGuards).value;
    assert forall d | d in t.guards :: Finished(w, d);
    var rest, more := CleanScanLetsIn(t);
    LeadsOn(w, ListGuards, rest, more);
    worlds, steps := [w] + rest, [ListGuards] + more;
  }

  // ---- The polling loop ----

  /** The guard directory as one process sees it. `probes[i]` is what it finds finished in pass `i`. */
  class GuardDirectory {
    var files: set<CommandId>

    constructor (existing: set<CommandId>)
      ensures files == existing
    {
      files := existing;
    }

    /** `waitForExecutions`: passes until one leaves nothing pending, or time is up. */
    method Wait(probes: seq<set<CommandId>>) returns (clear: bool)
      modifies this
      ensures clear <==> files == {}
      ensures files <= old(files)
      ensures forall c | c in old(files) && c !in files :: exists i | 0 <= i < |probes| :: c in probes[i]
      ensures !clear ==> forall c | c in files, i | 0 <= i < |probes| :: c !in probes[i]
    {
      for i := 0 to |probes|
        invariant files <= old(files)
        invariant forall c | c in old(files) && c !in files :: exists j | 0 <= j < |probes| :: c in probes[j]
        invariant forall c | c in files, j | 0 <= j < i :: c !in probes[j]
      {
        var pending := RemoveFinished(probes[i]);
        if pending == {} { return true; }
      }
      return files == {};
    }

    /** One pass over the listing. */
    method RemoveFinished(finished: set<CommandId>) returns (pending: set<CommandId>)
      modifies this
      ensures pending == old(files) - finished && files == pending
    {
      var todo := files;
      pending := {};
      while todo != {}
        invariant todo <= old(files) && pending == old(files) - todo - finished
        invariant files == todo + pending
        decreases todo
      {
        var c :| c in todo;
        todo := todo - {c};
        if c in finished { files := files - {c}; } else { pending := pending + {c}; }
      }
    }
  }
}
