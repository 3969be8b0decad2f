/**
 One Gate submission (src/submission.ts, src/submission-retention.ts): a durable record, the broker's
 own Git ref, a worktree, a manifest and, in the end, an archive entry. A step is one await of the
 code; a crash may fall between any two and loses only what the process held in memory. Others may
 delete the ref, or point it somewhere else, at any time.

 Every operation holds the integration lock, so one of them is under way at a time.
 */
module Gate {
  import opened Common

  type Sha = nat
  type Instant = nat
  type Inode = nat

  datatype Status = Received | Validating | Validated | Rejected | Failed | Abandoned

  datatype Scope = Focused | Authoritative

  datatype Validation = Validation(scope: Scope, name: string, passed: bool)

  datatype Intent = Intent(requestedAt: Instant, release: bool)

  datatype Record = Record(
    status: Status,
    established: bool,
    compromised: bool,
    worktree: bool,
    identity: Option<Inode>,
    validations: seq<Validation>,
    finishedAt: Option<Instant>,
    intent: Option<Intent>,
    archivedAt: Option<Instant>,
    releasedAt: Option<Instant>)

  datatype Ref = Missing | Direct(sha: Sha) | Symbolic

  /** `intact`: HEAD, index and every byte are as checked out. */
  datatype Worktree = Absent | Present(inode: Inode, intact: bool)

  /** Ensuring the ref: check, and if it is missing journal that, create it again, and check. */
  datatype Ensure = Check | Journal | Create | Verify

  datatype Stage =
    | Pin
    | EnsureFirst(e: Ensure)
    | Establish
    | Identify
    | Clear
    | Prepare
    | RecordRoot
    | AddWorktree
    | RecordWorktree
    | RunFocused
    | CheckFocused
    | RunAuthoritative
    | CheckAuthoritative
    | CleanCache
    | RemoveWorktree
    | EnsureLast(e: Ensure)
    | ReadCurrent
    | Reprove(finished: Record)
    | Commit(finished: Record)
    | WriteManifest(committed: Record)

  /** What the validating process holds in memory. */
  datatype Attempt = Attempt(
    stage: Stage, snapshot: Record, validations: seq<Validation>, preserved: set<Scope>, terminal: Status, added: bool)

  datatype Operation =
    | Idle
    | UnderWay(attempt: Attempt)
    | CleaningWorktree
    | CleaningRecord
    | CleaningManifest
    | Archiving(snapshot: Record, stage: ArchiveStage)

  datatype ArchiveStage = SettleRef | WriteArchive | ArchiveManifest | DropActive

  datatype Policy = Policy(sha: Sha, focused: seq<string>, authoritative: seq<string>)

  /** `seenMissing`: some check has found the ref missing since retention was established.
      `brokerReleased`: the broker itself has deleted the ref. */
  datatype World = World(
    active: Option<Record>,
    archived: Option<Record>,
    manifest: Option<Record>,
    ref: Ref,
    tree: Worktree,
    op: Operation,
    now: Instant,
    seenMissing: bool,
    brokerReleased: bool)

  type Outcome = Option<World>

  predicate Pending(r: Record) {
    r.status == Received || r.status == Validating
  }

  predicate Terminal(r: Record) {
    !Pending(r)
  }

  predicate PendingActive(w: World) {
    w.active.Some? && Pending(w.active.value)
  }

  function Next(w: World, a: Attempt, stage: Stage): World {
    w.(op := UnderWay(a.(stage := stage)))
  }

  /** An exception inside the try block ends the attempt's checks with this status. */
  function Caught(w: World, a: Attempt, status: Status): World {
    Next(w, a.(terminal := status), CleanCache)
  }

  function Stop(w: World): World {
    w.(op := Idle)
  }

  predicate InTry(s: Stage) {
    !s.CleanCache? && !s.RemoveWorktree? && !s.EnsureLast? && !s.ReadCurrent? && !s.Reprove? && !s.Commit? && !s.WriteManifest?
  }

  // ---- Intake and the first transaction ----

  function NewRecord(): Record {
    Record(Received, false, false, false, None, [], None, None, None, None)
  }

  function Receive(w: World): Outcome {
    if !w.op.Idle? || w.active.Some? || w.archived.Some? then None else Some(w.(active := Some(NewRecord())))
  }

  function BeginValidation(w: World): Outcome {
    if !w.op.Idle? || !PendingActive(w) then None
    else
      var r := w.active.value;
      var stage := if r.established then EnsureFirst(Check) else Pin;
      Some(w.(active := Some(r.(status := Validating, worktree := true)),
              op := UnderWay(Attempt(stage, r, [], {}, Validated, false))))
  }

  // ---- The ref ----

  /** A check that finds the ref missing counts once retention has been established. */
  function Noticed(w: World): World {
    w.(seenMissing := w.seenMissing || (w.ref.Missing? && w.active.Some? && w.active.value.established))
  }

  /** `retainPinnedLocalRef`, one await at a time. `last` is the call after cleanup, outside the try. */
  function EnsureStep(p: Policy, w: World, a: Attempt, e: Ensure, last: bool): World {
    match e
    case Check =>
      if w.ref == Direct(p.sha) then Ensured(w, a, last)
      else if w.ref.Missing? then EnsureNext(Noticed(w), a, Journal, last)
      else EnsureFailed(w, a, last)
    case Journal =>
      if !StillValidating(w) then EnsureFailed(w, a, last)
      else EnsureNext(w, a, Create, last).(active := Some(w.active.value.(compromised := true)))
    case Create =>
      if w.ref.Missing? then EnsureNext(w, a, Verify, last).(ref := Direct(p.sha))
      else if w.ref == Direct(p.sha) then EnsureNext(w, a, Verify, last)
      else EnsureFailed(w, a, last)
    case Verify =>
      if w.ref == Direct(p.sha) then Ensured(w, a, last) else EnsureFailed(Noticed(w), a, last)
  }

  function EnsureNext(w: World, a: Attempt, e: Ensure, last: bool): World {
    Next(w, a, if last then EnsureLast(e) else EnsureFirst(e))
  }

  function Ensured(w: World, a: Attempt, last: bool): World {
    Next(w, a, if last then ReadCurrent else Identify)
  }

  function EnsureFailed(w: World, a: Attempt, last: bool): World {
    if last then Stop(w) else Caught(w, a, Failed)
  }

  /** `pinLocalRef`: create only; the same commit already there is a lost response. */
  function PinStep(p: Policy, w: World, a: Attempt): World {
    if w.ref.Missing? then Next(w, a, Establish).(ref := Direct(p.sha))
    else if w.ref == Direct(p.sha) then Next(w, a, Establish)
    else Caught(w, a, Failed)
  }

  // ---- The attempt ----

  /** What running the validators of one scope gives: all passed, one failed, or some other error. */
  datatype Verdict = AllPassed | OneFailed(completed: seq<Validation>) | Broke

  function Passing(scope: Scope, names: seq<string>): seq<Validation> {
    seq(|names|, i requires 0 <= i < |names| => Validation(scope, names[i], true))
  }

  function RunValidators(w: World, a: Attempt, scope: Scope, names: seq<string>, verdict: Verdict, intact: bool): World {
    var tree := if w.tree.Present? then w.tree.(intact := w.tree.intact && intact) else w.tree;
    var after := w.(tree := tree);
    match verdict
    case AllPassed =>
      Next(after, a.(validations := a.validations + Passing(scope, names)),
           if scope == Focused then CheckFocused else CheckAuthoritative)
    case OneFailed(completed) => Caught(after, a.(validations := a.validations + completed), Rejected)
    case Broke => Caught(after, a, Failed)
  }

  /** `assertValidatorPreservedCandidate`. */
  function CheckPreserved(w: World, a: Attempt, scope: Scope): World {
    if w.tree.Present? && w.tree.intact
    then Next(w, a.(preserved := a.preserved + {scope}), if scope == Focused then RunAuthoritative else CleanCache)
    else Caught(w, a, Rejected)
  }

  function WithIdentity(w: World, identity: Option<Inode>): World
    requires w.active.Some?
  {
    w.(active := Some(w.active.value.(identity := identity)))
  }

  /** The guard of every transaction of the attempt. */
  predicate StillValidating(w: World) {
    w.active.Some? && w.active.value.status == Validating
  }

  /** The record the attempt will commit. */
  function Finished(r: Record, a: Attempt, now: Instant): Record {
    r.(status := if r.compromised && a.terminal == Validated then Failed else a.terminal,
       validations := a.validations, finishedAt := Some(now), worktree := false, identity := None)
  }

  datatype Answer = Answer(ok: bool, verdict: Verdict, intact: bool, inode: Inode)

  /** One step of a validating process; `ans` supplies whatever Git, the host or a validator answers. */
  function ValidationStep(p: Policy, w: World, a: Attempt, ans: Answer): World {
    match a.stage
    case Pin => PinStep(p, w, a)
    case EnsureFirst(e) => EnsureStep(p, w, a, e, false)
    case Establish =>
      if !StillValidating(w) then Caught(w, a, Failed)
      else Next(w, a, Identify).(active := Some(w.active.value.(established := true)))
    case Identify => if ans.ok then Next(w, a, Clear) else Caught(w, a, Failed)
    case Clear =>
      if !ans.ok || !StillValidating(w) then Caught(w, a, Failed)
      else Next(WithIdentity(w.(tree := Absent), None), a, Prepare)
    case Prepare =>
      if !ans.ok then Caught(w, a, Failed)
      else Next(w.(tree := Present(ans.inode, true)), a.(added := true), RecordRoot)
    case RecordRoot =>
      if !StillValidating(w) then Caught(w, a, Failed) else Next(WithIdentity(w, Some(ans.inode)), a, AddWorktree)
    case AddWorktree => if ans.ok then Next(w, a, RecordWorktree) else Caught(w, a, Failed)
    case RecordWorktree =>
      if !StillValidating(w) then Caught(w, a, Failed) else Next(WithIdentity(w, Some(ans.inode)), a, RunFocused)
    case RunFocused => RunValidators(w, a, Focused, p.focused, ans.verdict, ans.intact)
    case CheckFocused => CheckPreserved(w, a, Focused)
    case RunAuthoritative => RunValidators(w, a, Authoritative, p.authoritative, ans.verdict, ans.intact)
    case CheckAuthoritative => CheckPreserved(w, a, Authoritative)
    case CleanCache => Next(w, if !ans.ok && a.terminal == Validated then a.(terminal := Failed) else a, RemoveWorktree)
    case RemoveWorktree => if ans.ok then Next(w.(tree := Absent), a, EnsureLast(Check)) else Stop(w)
    case EnsureLast(e) => EnsureStep(p, w, a, e, true)
    case ReadCurrent =>
      if !StillValidating(w) then Stop(w) else Next(w, a, Reprove(Finished(w.active.value, a, w.now)))
    case Reprove(finished) => if ans.ok then Next(w, a, Commit(finished)) else Stop(w)
    case Commit(finished) =>
      if w.ref != Direct(p.sha) then Stop(Noticed(w))
      else if !StillValidating(w) then Stop(w)
      else Next(w, a, WriteManifest(finished)).(active := Some(finished))
    case WriteManifest(committed) => if ans.ok then Stop(w).(manifest := Some(committed)) else Stop(w)
  }

  // ---- Abandonment ----

  function Abandon(w: World): Outcome {
    if !w.op.Idle? || w.active.None? then None
    else if w.active.value.status == Abandoned then Some(w.(op := CleaningWorktree))
    else if !Pending(w.active.value) then None
    else Some(w.(active := Some(w.active.value.(status := Abandoned, finishedAt := Some(w.now))), op := CleaningWorktree))
  }

  /** Recovery resumes a cleanup that was cut short. */
  function ResumeCleanup(w: World): Outcome {
    if !w.op.Idle? || w.active.None? || w.active.value.intent.Some? || w.active.value.status != Abandoned
       || (!w.active.value.worktree && w.active.value.identity.None?)
    then None
    else Some(w.(op := CleaningWorktree))
  }

  function CleanupStep(w: World, ok: bool): Outcome {
    if w.active.None? then None
    else match w.op
      case CleaningWorktree =>
        if w.active.value.status != Abandoned || (!w.active.value.worktree && w.active.value.identity.Some?) || !ok
        then Some(Stop(w))
        else Some(w.(tree := if w.active.value.worktree then Absent else w.tree, op := CleaningRecord))
      case CleaningRecord => Some(w.(active := Some(w.active.value.(worktree := false, identity := None)), op := CleaningManifest))
      case CleaningManifest => Some(Stop(w).(manifest := if ok then w.active else w.manifest))
      case _ => None
  }

  // ---- Archival ----

  predicate Archivable(r: Record) {
    Terminal(r) && !r.worktree && r.identity.None?
  }

  function RequestArchive(w: World, release: bool): Outcome {
    if !w.op.Idle? || w.active.None? || !Archivable(w.active.value) then None
    else
      var r := w.active.value;
      if r.intent.Some? then (if r.intent.value.release != release then None else Some(w))
      else Some(w.(active := Some(r.(intent := Some(Intent(w.now, release))))))
  }

  function BeginArchive(w: World): Outcome {
    if !w.op.Idle? || w.active.None? || w.active.value.intent.None? || !Archivable(w.active.value) then None
    else Some(w.(op := Archiving(w.active.value, SettleRef)))
  }

  /** A function of the record alone: the instant is the recorded intent's, not the clock's. */
  function ArchivedForm(r: Record): Record
    requires r.intent.Some?
  {
    r.(archivedAt := Some(r.intent.value.requestedAt),
       releasedAt := if r.intent.value.release then Some(r.intent.value.requestedAt) else r.releasedAt,
       intent := None)
  }

  function ArchiveStep(p: Policy, w: World, r: Record, stage: ArchiveStage, ok: bool): World
    requires r.intent.Some?
  {
    match stage
    case SettleRef =>
      if w.ref == Direct(p.sha) then
        (if r.intent.value.release
         then w.(ref := Missing, brokerReleased := true, op := Archiving(r, WriteArchive))
         else w.(op := Archiving(r, WriteArchive)))
      else if r.intent.value.release && w.ref.Missing? then w.(op := Archiving(r, WriteArchive))
      else Stop(w)
    case WriteArchive =>
      if ok then w.(archived := Some(ArchivedForm(r)), op := Archiving(r, ArchiveManifest)) else Stop(w)
    case ArchiveManifest =>
      if ok then w.(manifest := Some(ArchivedForm(r)), op := Archiving(r, DropActive)) else Stop(w)
    case DropActive => Stop(w).(active := if w.active == Some(r) then None else w.active)
  }

  /** Recovery rewrites the manifest of a finished record that is not being archived. */
  function RepairManifest(w: World): Outcome {
    if !w.op.Idle? || w.active.None? || Pending(w.active.value) || w.active.value.intent.Some? || w.active.value.worktree then None
    else Some(w.(manifest := w.active))
  }

  // ---- The machine ----

  datatype Step =
    | SReceive
    | SBegin
    | SValidate(ans: Answer)
    | SThrow
    | SAbandon
    | SResumeCleanup
    | SClean(ok: bool)
    | SRequestArchive(release: bool)
    | SBeginArchive
    | SArchive(ok: bool)
    | SRepairManifest
    | SCrash
    | SDeleteRef
    | SMoveRef(to: Ref)
    | STick

  function Apply(p: Policy, w: World, step: Step): Outcome {
    match step
    case SReceive => Receive(w)
    case SBegin => BeginValidation(w)
    case SValidate(ans) => if w.op.UnderWay? then Some(ValidationStep(p, w, w.op.attempt, ans)) else None
    case SThrow =>
      if !w.op.UnderWay? then None
      else if InTry(w.op.attempt.stage) then Some(Caught(w, w.op.attempt, Failed))
      else Some(Stop(w))
    case SAbandon => Abandon(w)
    case SResumeCleanup => ResumeCleanup(w)
    case SClean(ok) => CleanupStep(w, ok)
    case SRequestArchive(release) => RequestArchive(w, release)
    case SBeginArchive => BeginArchive(w)
    case SArchive(ok) =>
      if w.op.Archiving? && w.op.snapshot.intent.Some? then Some(ArchiveStep(p, w, w.op.snapshot, w.op.stage, ok)) else None
    case SRepairManifest => RepairManifest(w)
    case SCrash => Some(Stop(w))
    case SDeleteRef => Some(w.(ref := Missing))
    case SMoveRef(to) => if to == Direct(p.sha) then None else Some(w.(ref := to))
    case STick => Some(w.(now := w.now + 1))
  }

  function Initial(): World {
    World(None, None, None, Missing, Absent, Idle, 0, false, false)
  }

  ghost predicate Run(p: Policy, worlds: seq<World>, steps: seq<Step>) {
    |worlds| == |steps| + 1 && worlds[0] == Initial()
    && forall i | 0 <= i < |steps| :: Apply(p, worlds[i], steps[i]) == Some(worlds[i + 1])
  }
}
