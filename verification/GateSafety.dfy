/**
 What a Gate submission keeps through crashes, replays and lost refs.
 */
module GateSafety {
  import opened Common
  import opened Gate

  // ---- While validating ----

  /** Every validator of the attempt has passed, on a worktree found unchanged after each scope. */
  ghost predicate AllRan(p: Policy, a: Attempt) {
    a.validations == Passing(Focused, p.focused) + Passing(Authoritative, p.authoritative)
    && a.preserved == {Focused, Authoritative}
  }

  /** How far an attempt that has not failed has come. */
  ghost predicate OnTrack(p: Policy, a: Attempt) {
    match a.stage
    case CheckFocused => a.validations == Passing(Focused, p.focused) && a.preserved == {}
    case RunAuthoritative => a.validations == Passing(Focused, p.focused) && a.preserved == {Focused}
    case CheckAuthoritative =>
      a.validations == Passing(Focused, p.focused) + Passing(Authoritative, p.authoritative) && a.preserved == {Focused}
    case CleanCache => AllRan(p, a)
    case RemoveWorktree => AllRan(p, a)
    case EnsureLast(_) => AllRan(p, a)
    case ReadCurrent => AllRan(p, a)
    case Reprove(_) => AllRan(p, a)
    case Commit(_) => AllRan(p, a)
    case WriteManifest(_) => true
    case _ => a.validations == [] && a.preserved == {}
  }

  /** The record that is about to be committed is the stored one, finished. */
  ghost predicate FinishedFits(w: World, a: Attempt) {
    (a.stage.Reprove? || a.stage.Commit?) ==>
      w.active.Some? && a.stage.finished.finishedAt.Some?
      && a.stage.finished == Finished(w.active.value, a, a.stage.finished.finishedAt.value)
  }

  ghost predicate AttemptOk(p: Policy, w: World, a: Attempt) {
    && a.terminal in {Validated, Rejected, Failed}
    && (a.terminal == Validated ==> OnTrack(p, a))
    && (!a.stage.WriteManifest? ==> w.active.Some? && w.active.value.status == Validating)
    && (InTry(a.stage) ==> a.terminal == Validated)
    && FinishedFits(w, a)
    && (a.stage == Pin ==> !w.active.value.established)
    && (a.terminal == Validated && a.stage != Pin && a.stage != Establish && !a.stage.WriteManifest? ==>
          w.active.value.established)
    && (a.stage.EnsureFirst? ==> w.active.value.established)
    && (CompromiseKnown(a.stage) ==> w.active.value.compromised)
    && (a.stage.WriteManifest? ==> w.active == Some(a.stage.committed) && Terminal(a.stage.committed))
  }

  /** Past the journal step of a repair the loss is on record. */
  predicate CompromiseKnown(s: Stage) {
    s == EnsureFirst(Create) || s == EnsureFirst(Verify) || s == EnsureLast(Create) || s == EnsureLast(Verify)
  }

  // ---- The invariant ----

  /** Since retention was established, a loss that some check saw is on record, or the ref is still
      not there: only the broker puts it back, and it writes the loss down first. */
  ghost predicate LossRecorded(p: Policy, w: World) {
    PendingActive(w) && w.seenMissing ==>
      w.active.value.established && (w.active.value.compromised || w.ref != Direct(p.sha))
  }

  ghost predicate ActiveOk(r: Record) {
    && r.archivedAt.None? && r.releasedAt.None?
    && (Pending(r) ==> r.intent.None?)
    && (r.intent.Some? ==> !r.worktree && r.identity.None?)
  }

  ghost predicate ArchiveOk(w: World) {
    && (w.archived.Some? && w.active.Some? ==> w.active.value.intent.Some? && w.archived.value == ArchivedForm(w.active.value))
    && (w.archived.Some? ==> w.archived.value.intent.None? && w.archived.value.archivedAt.Some? && Terminal(w.archived.value))
    && (w.op.Archiving? ==>
          w.op.snapshot.intent.Some? && Terminal(w.op.snapshot)
          && (w.active == Some(w.op.snapshot))
          && (w.op.stage == ArchiveManifest || w.op.stage == DropActive ==> w.archived == Some(ArchivedForm(w.op.snapshot)))
          && (w.op.stage == DropActive ==> w.manifest == Some(ArchivedForm(w.op.snapshot))))
  }

  /** The broker has deleted the ref only for a record whose intent said so. */
  ghost predicate ReleaseIntended(w: World) {
    w.brokerReleased ==>
      (w.active.Some? ==> w.active.value.intent.Some? && w.active.value.intent.value.release)
      && (w.active.None? ==> w.archived.Some? && w.archived.value.releasedAt.Some?)
  }

  ghost predicate CleanupOk(w: World) {
    && (w.op.CleaningWorktree? || w.op.CleaningRecord? || w.op.CleaningManifest? ==>
          w.active.Some? && w.active.value.status == Abandoned)
    && (w.op.CleaningManifest? ==> !w.active.value.worktree && w.active.value.identity.None?)
  }

  /** A manifest never says more than the state does. */
  ghost predicate ManifestHonest(w: World) {
    w.manifest.Some? ==>
      Terminal(w.manifest.value)
      && (w.active.Some? ==> w.manifest.value.status == w.active.value.status)
      && (w.active.None? ==> w.archived.Some? && w.manifest == w.archived)
  }

  ghost predicate Inv(p: Policy, w: World) {
    && (w.active.Some? ==> ActiveOk(w.active.value))
    && (w.op.UnderWay? ==> AttemptOk(p, w, w.op.attempt))
    && LossRecorded(p, w)
    && ArchiveOk(w)
    && ReleaseIntended(w)
    && CleanupOk(w)
    && ManifestHonest(w)
    && (w.seenMissing || w.brokerReleased ==> w.active.Some? || w.archived.Some?)
    && (PendingActive(w) ==> w.archived.None? && w.manifest.None?)
  }

  // ---- Validation keeps it ----

  ghost predicate Keeps(p: Policy, w: World, o: Outcome) {
    o.Some? ==> Inv(p, o.value)
  }

  /** Where every exception of the try block leads. */
  lemma CaughtKeeps(p: Policy, w: World, a: Attempt, status: Status)
    requires Inv(p, w.(op := Idle)) && w.active.Some? && w.active.value.status == Validating
    requires status == Rejected || status == Failed
    ensures Inv(p, Caught(w, a, status))
  {
  }

  lemma StopKeeps(p: Policy, w: World)
    requires Inv(p, w)
    ensures Inv(p, Stop(w))
  {
  }

  lemma NoticedKeeps(p: Policy, w: World)
    requires Inv(p, w) && w.ref != Direct(p.sha)
    ensures Inv(p, Noticed(w))
  {
  }

  ghost predicate Attempting(p: Policy, w: World, a: Attempt) {
    Inv(p, w) && w.op == UnderWay(a)
  }

  lemma EnsureFailedKeeps(p: Policy, w: World, a: Attempt, last: bool)
    requires Inv(p, w) && w.active.Some? && w.active.value.status == Validating
    ensures Inv(p, EnsureFailed(w, a, last))
  {
    if last { StopKeeps(p, w); } else { CaughtKeeps(p, w, a, Failed); }
  }

  lemma EnsuredKeeps(p: Policy, w: World, a: Attempt, last: bool)
    requires Attempting(p, w, a) && (if last then a.stage.EnsureLast? else a.stage.EnsureFirst?)
    ensures Inv(p, Ensured(w, a, last))
  {
  }

  lemma WillJournalKeeps(p: Policy, w: World, a: Attempt, last: bool)
    requires Attempting(p, w, a) && a.stage == if last then EnsureLast(Check) else EnsureFirst(Check)
    ensures Inv(p, EnsureNext(w, a, Journal, last))
  {
  }

  lemma CheckKeeps(p: Policy, w: World, a: Attempt, last: bool)
    requires Attempting(p, w, a) && a.stage == if last then EnsureLast(Check) else EnsureFirst(Check)
    ensures Inv(p, EnsureStep(p, w, a, Check, last))
  {
    if w.ref == Direct(p.sha) {
      EnsuredKeeps(p, w, a, last);
    } else if w.ref.Missing? {
      NoticedKeeps(p, w);
      WillJournalKeeps(p, Noticed(w), a, last);
    } else {
      EnsureFailedKeeps(p, w, a, last);
    }
  }

  lemma JournalKeeps(p: Policy, w: World, a: Attempt, last: bool)
    requires Attempting(p, w, a) && a.stage == if last then EnsureLast(Journal) else EnsureFirst(Journal)
    ensures Inv(p, EnsureStep(p, w, a, Journal, last))
  {
    EnsureFailedKeeps(p, w, a, last);
  }

  lemma CreateKeeps(p: Policy, w: World, a: Attempt, last: bool)
    requires Attempting(p, w, a) && a.stage == if last then EnsureLast(Create) else EnsureFirst(Create)
    ensures Inv(p, EnsureStep(p, w, a, Create, last))
  {
    EnsureFailedKeeps(p, w, a, last);
  }

  lemma VerifyKeeps(p: Policy, w: World, a: Attempt, last: bool)
    requires Attempting(p, w, a) && a.stage == if last then EnsureLast(Verify) else EnsureFirst(Verify)
    ensures Inv(p, EnsureStep(p, w, a, Verify, last))
  {
    EnsuredKeeps(p, w, a, last);
    if w.ref != Direct(p.sha) {
      NoticedKeeps(p, w);
      EnsureFailedKeeps(p, Noticed(w), a, last);
    }
  }

  lemma EnsureKeeps(p: Policy, w: World, a: Attempt, e: Ensure, last: bool)
    requires Attempting(p, w, a) && a.stage == if last then EnsureLast(e) else EnsureFirst(e)
    ensures Inv(p, EnsureStep(p, w, a, e, last))
  {
    match e
    case Check => CheckKeeps(p, w, a, last);
    case Journal => JournalKeeps(p, w, a, last);
    case Create => CreateKeeps(p, w, a, last);
    case Verify => VerifyKeeps(p, w, a, last);
  }

  lemma PinKeeps(p: Policy, w: World, a: Attempt)
    requires Attempting(p, w, a) && (a.stage == Pin || a.stage == Establish || a.stage == Identify)
    ensures forall ans :: Inv(p, ValidationStep(p, w, a, ans))
  {
    StopKeeps(p, w);
    CaughtKeeps(p, w, a, Failed);
  }

  lemma PrepareKeeps(p: Policy, w: World, a: Attempt, ans: Answer)
    requires Attempting(p, w, a)
    requires a.stage == Clear || a.stage == Prepare || a.stage == RecordRoot || a.stage == AddWorktree || a.stage == RecordWorktree
    ensures Inv(p, ValidationStep(p, w, a, ans))
  {
    StopKeeps(p, w);
    CaughtKeeps(p, w, a, Failed);
  }

  /** What a validator does to the worktree is no part of the invariant until it is checked. */
  lemma TreeKeeps(p: Policy, w: World, tree: Worktree)
    requires Inv(p, w)
    ensures Inv(p, w.(tree := tree))
  {
  }

  lemma PassedKeeps(p: Policy, w: World, a: Attempt, scope: Scope)
    requires Attempting(p, w, a) && a.stage == if scope == Focused then RunFocused else RunAuthoritative
    ensures var names := if scope == Focused then p.focused else p.authoritative;
            Inv(p, Next(w, a.(validations := a.validations + Passing(scope, names)),
                        if scope == Focused then CheckFocused else CheckAuthoritative))
  {
    assert [] + Passing(Focused, p.focused) == Passing(Focused, p.focused);
  }

  lemma RunKeeps(p: Policy, w: World, a: Attempt, scope: Scope, verdict: Verdict, intact: bool)
    requires Attempting(p, w, a) && a.stage == if scope == Focused then RunFocused else RunAuthoritative
    ensures Inv(p, RunValidators(w, a, scope, if scope == Focused then p.focused else p.authoritative, verdict, intact))
  {
    var tree := if w.tree.Present? then w.tree.(intact := w.tree.intact && intact) else w.tree;
    var after := w.(tree := tree);
    TreeKeeps(p, w, tree);
    StopKeeps(p, after);
    match verdict
    case AllPassed => PassedKeeps(p, after, a, scope);
    case OneFailed(completed) => CaughtKeeps(p, after, a.(validations := a.validations + completed), Rejected);
    case Broke => CaughtKeeps(p, after, a, Failed);
  }

  lemma CheckedKeeps(p: Policy, w: World, a: Attempt, scope: Scope)
    requires Attempting(p, w, a) && a.stage == if scope == Focused then CheckFocused else CheckAuthoritative
    ensures Inv(p, Next(w, a.(preserved := a.preserved + {scope}), if scope == Focused then RunAuthoritative else CleanCache))
  {
    assert {} + {Focused} == {Focused} && {Focused} + {Authoritative} == {Focused, Authoritative};
  }

  lemma PreservedKeeps(p: Policy, w: World, a: Attempt, scope: Scope)
    requires Attempting(p, w, a) && a.stage == if scope == Focused then CheckFocused else CheckAuthoritative
    ensures Inv(p, CheckPreserved(w, a, scope))
  {
    CheckedKeeps(p, w, a, scope);
    CaughtKeeps(p, w, a, Rejected);
  }

  lemma FinishKeeps(p: Policy, w: World, a: Attempt, ans: Answer)
    requires Attempting(p, w, a)
    requires a.stage == CleanCache || a.stage == RemoveWorktree || a.stage == ReadCurrent || a.stage.Reprove?
    ensures Inv(p, ValidationStep(p, w, a, ans))
  {
    StopKeeps(p, w);
  }

  lemma CommitKeeps(p: Policy, w: World, a: Attempt, ans: Answer)
    requires Attempting(p, w, a) && (a.stage.Commit? || a.stage.WriteManifest?)
    ensures Inv(p, ValidationStep(p, w, a, ans))
  {
    StopKeeps(p, w);
    if w.ref != Direct(p.sha) {
      NoticedKeeps(p, w);
      StopKeeps(p, Noticed(w));
    }
  }

  lemma ValidationKeeps(p: Policy, w: World, a: Attempt, ans: Answer)
    requires Attempting(p, w, a)
    ensures Inv(p, ValidationStep(p, w, a, ans))
  {
    match a.stage
    case EnsureFirst(e) => EnsureKeeps(p, w, a, e, false);
    case EnsureLast(e) => EnsureKeeps(p, w, a, e, true);
    case RunFocused => RunKeeps(p, w, a, Focused, ans.verdict, ans.intact);
    case RunAuthoritative => RunKeeps(p, w, a, Authoritative, ans.verdict, ans.intact);
    case CheckFocused => PreservedKeeps(p, w, a, Focused);
    case CheckAuthoritative => PreservedKeeps(p, w, a, Authoritative);
    case CleanCache => FinishKeeps(p, w, a, ans);
    case RemoveWorktree => FinishKeeps(p, w, a, ans);
    case ReadCurrent => FinishKeeps(p, w, a, ans);
    case Reprove(_) => FinishKeeps(p, w, a, ans);
    case Commit(_) => CommitKeeps(p, w, a, ans);
    case WriteManifest(_) => CommitKeeps(p, w, a, ans);
    case Pin => PinKeeps(p, w, a);
    case Establish => PinKeeps(p, w, a);
    case Identify => PinKeeps(p, w, a);
    case _ => PrepareKeeps(p, w, a, ans);
  }

  // ---- So does everything else ----

  lemma IntakeKeeps(p: Policy, w: World)
    requires Inv(p, w)
    ensures Keeps(p, w, Receive(w)) && Keeps(p, w, BeginValidation(w))
  {
  }

  lemma AbandonKeeps(p: Policy, w: World)
    requires Inv(p, w)
    ensures Keeps(p, w, Abandon(w)) && Keeps(p, w, ResumeCleanup(w)) && Keeps(p, w, RepairManifest(w))
  {
  }

  lemma CleanWorktreeKeeps(p: Policy, w: World, ok: bool)
    requires Inv(p, w) && w.op.CleaningWorktree?
    ensures Keeps(p, w, CleanupStep(w, ok))
  {
    StopKeeps(p, w);
  }

  lemma CleanRecordKeeps(p: Policy, w: World, ok: bool)
    requires Inv(p, w) && (w.op.CleaningRecord? || w.op.CleaningManifest?)
    ensures Keeps(p, w, CleanupStep(w, ok))
  {
    StopKeeps(p, w);
    assert w.active.value.intent.Some? ==> w.active.value.(worktree := false, identity := None) == w.active.value;
  }

  lemma CleanupKeeps(p: Policy, w: World, ok: bool)
    requires Inv(p, w)
    ensures Keeps(p, w, CleanupStep(w, ok))
  {
    match w.op
    case CleaningWorktree => CleanWorktreeKeeps(p, w, ok);
    case CleaningRecord => CleanRecordKeeps(p, w, ok);
    case CleaningManifest => CleanRecordKeeps(p, w, ok);
    case _ =>
  }

  lemma RequestKeeps(p: Policy, w: World, release: bool)
    requires Inv(p, w)
    ensures Keeps(p, w, RequestArchive(w, release))
  {
  }

  lemma BeginArchiveKeeps(p: Policy, w: World)
    requires Inv(p, w)
    ensures Keeps(p, w, BeginArchive(w))
  {
  }

  lemma ArchiveStepKeeps(p: Policy, w: World, stage: ArchiveStage, ok: bool)
    requires Inv(p, w) && w.op.Archiving? && w.op.stage == stage
    ensures Inv(p, ArchiveStep(p, w, w.op.snapshot, stage, ok))
  {
    StopKeeps(p, w);
    match stage
    case SettleRef =>
    case WriteArchive =>
    case ArchiveManifest =>
    case DropActive =>
  }

  lemma ArchiveKeeps(p: Policy, w: World, ok: bool)
    requires Inv(p, w)
    ensures Keeps(p, w, Apply(p, w, SArchive(ok)))
  {
    if w.op.Archiving? { ArchiveStepKeeps(p, w, w.op.stage, ok); }
  }

  lemma OutsideKeeps(p: Policy, w: World, step: Step)
    requires Inv(p, w) && (step.SCrash? || step.SDeleteRef? || step.SMoveRef? || step.STick? || step.SThrow?)
    ensures Keeps(p, w, Apply(p, w, step))
  {
    StopKeeps(p, w);
    if step.SThrow? && w.op.UnderWay? && InTry(w.op.attempt.stage) { CaughtKeeps(p, w, w.op.attempt, Failed); }
  }

  lemma StepKeeps(p: Policy, w: World, step: Step)
    requires Inv(p, w)
    ensures Keeps(p, w, Apply(p, w, step))
  {
    match step
    case SReceive => IntakeKeeps(p, w);
    case SBegin => IntakeKeeps(p, w);
    case SValidate(ans) => if w.op.UnderWay? { ValidationKeeps(p, w, w.op.attempt, ans); }
    case SAbandon => AbandonKeeps(p, w);
    case SResumeCleanup => AbandonKeeps(p, w);
    case SRepairManifest => AbandonKeeps(p, w);
    case SClean(ok) => CleanupKeeps(p, w, ok);
    case SRequestArchive(release) => RequestKeeps(p, w, release);
    case SBeginArchive => BeginArchiveKeeps(p, w);
    case SArchive(ok) => ArchiveKeeps(p, w, ok);
    case _ => OutsideKeeps(p, w, step);
  }

  lemma {:induction false} RunKeepsInv(p: Policy, worlds: seq<World>, steps: seq<Step>, k: nat)
    requires Run(p, worlds, steps) && k < |worlds|
    ensures Inv(p, worlds[k])
  {
    if k > 0 {
      RunKeepsInv(p, worlds, steps, k - 1);
      StepKeeps(p, worlds[k - 1], steps[k - 1]);
    }
  }

  // ---- The theorems ----

  /** The stages that create the ref: the first pin, and the repair of a loss. */
  predicate Creates(s: Stage) {
    s == Pin || s == EnsureFirst(Create) || s == EnsureLast(Create)
  }

  lemma OthersLeaveTheRef(p: Policy, w: World, step: Step)
    requires Apply(p, w, step).Some? && w.ref != Direct(p.sha) && Apply(p, w, step).value.ref == Direct(p.sha)
    ensures step.SValidate? && w.op.UnderWay? && Apply(p, w, step).value == ValidationStep(p, w, w.op.attempt, step.ans)
  {
  }

  lemma OnlyCreationWritesTheRef(p: Policy, w: World, a: Attempt, ans: Answer)
    requires w.ref != Direct(p.sha) && ValidationStep(p, w, a, ans).ref == Direct(p.sha)
    ensures Creates(a.stage) && w.ref.Missing?
  {
  }

  /** Whatever puts the ref back at the recorded commit finds it missing, and either pins it for the first
      time, before retention was established, or finds the loss already written down. */
  lemma RefRestoredOnlyAfterJournal(p: Policy, w: World, step: Step)
    requires Inv(p, w) && Apply(p, w, step).Some?
    requires w.ref != Direct(p.sha) && Apply(p, w, step).value.ref == Direct(p.sha)
    ensures step.SValidate? && w.op.UnderWay? && w.ref.Missing? && w.active.Some?
    ensures if w.op.attempt.stage == Pin then !w.active.value.established else w.active.value.compromised
  {
    OthersLeaveTheRef(p, w, step);
    OnlyCreationWritesTheRef(p, w, w.op.attempt, step.ans);
  }

  /** What a submission that becomes validated has behind it at that very step. */
  ghost predicate EarnedBy(p: Policy, w: World, t: World) {
    && w.ref == Direct(p.sha)
    && w.active.Some? && w.active.value.established && !w.active.value.compromised
    && !t.seenMissing
    && t.active.Some? && t.active.value.validations == Passing(Focused, p.focused) + Passing(Authoritative, p.authoritative)
    && w.op.UnderWay? && w.op.attempt.preserved == {Focused, Authoritative}
  }

  lemma OnlyCommitFinishes(p: Policy, w: World, step: Step)
    requires Inv(p, w) && PendingActive(w) && Apply(p, w, step).Some?
    requires Apply(p, w, step).value.active.Some? && Apply(p, w, step).value.active.value.status == Validated
    ensures step.SValidate? && w.op.UnderWay? && w.op.attempt.stage.Commit?
    ensures Apply(p, w, step).value == ValidationStep(p, w, w.op.attempt, step.ans)
  {
    if step.SValidate? && w.op.UnderWay? && !w.op.attempt.stage.Commit? {
      StatusMovesOnlyAtCommit(p, w, w.op.attempt, step.ans);
    }
  }

  lemma StatusMovesOnlyAtCommit(p: Policy, w: World, a: Attempt, ans: Answer)
    requires Attempting(p, w, a) && !a.stage.Commit?
    ensures var t := ValidationStep(p, w, a, ans);
            t.active.Some? && w.active.Some? && t.active.value.status == w.active.value.status
  {
  }

  /** A submission is validated only with its ref at the recorded commit at that step, nothing having
      found it missing since retention was established, and every validator of the attempt passed on
      a worktree that stayed unchanged. */
  lemma ValidatedIsEarned(p: Policy, worlds: seq<World>, steps: seq<Step>, k: nat)
    requires Run(p, worlds, steps) && k < |steps| && PendingActive(worlds[k])
    requires worlds[k + 1].active.Some? && worlds[k + 1].active.value.status == Validated
    ensures EarnedBy(p, worlds[k], worlds[k + 1])
  {
    RunKeepsInv(p, worlds, steps, k);
    OnlyCommitFinishes(p, worlds[k], steps[k]);
    CommitEarns(p, worlds[k], worlds[k].op.attempt, steps[k].ans);
  }

  lemma CommitEarns(p: Policy, w: World, a: Attempt, ans: Answer)
    requires Attempting(p, w, a) && a.stage.Commit? && PendingActive(w)
    requires ValidationStep(p, w, a, ans).active.value.status == Validated
    ensures EarnedBy(p, w, ValidationStep(p, w, a, ans))
  {
    assert w.ref == Direct(p.sha);
    assert LossRecorded(p, w);
  }

  /** Where the submission is listed: its active record if there is one, else its archived one. */
  function Listed(w: World): Option<Record> {
    if w.active.Some? then w.active else w.archived
  }

  ghost predicate StatusKept(w: World, t: World) {
    Listed(w).Some? ==>
      Listed(t).Some? && (Terminal(Listed(w).value) ==> Listed(t).value.status == Listed(w).value.status)
  }

  lemma ValidationKeepsStatus(p: Policy, w: World, a: Attempt, ans: Answer)
    requires Attempting(p, w, a)
    ensures StatusKept(w, ValidationStep(p, w, a, ans))
  {
    if !a.stage.Commit? && !a.stage.WriteManifest? { StatusMovesOnlyAtCommit(p, w, a, ans); }
  }

  lemma ArchiveKeepsStatus(p: Policy, w: World, ok: bool)
    requires Inv(p, w) && w.op.Archiving?
    ensures StatusKept(w, ArchiveStep(p, w, w.op.snapshot, w.op.stage, ok))
  {
  }

  lemma StepKeepsStatus(p: Policy, w: World, step: Step)
    requires Inv(p, w)
    ensures Apply(p, w, step).Some? ==> StatusKept(w, Apply(p, w, step).value)
  {
    if step.SValidate? { if w.op.UnderWay? { ValidationKeepsStatus(p, w, w.op.attempt, step.ans); } }
    else if step.SArchive? { if w.op.Archiving? { ArchiveKeepsStatus(p, w, step.ok); } }
  }

  /** A submission is never lost, and a terminal status never changes: not by a crash, a replay, an
      abandonment or its archival. */
  lemma {:induction false} TerminalStatusIsFinal(p: Policy, worlds: seq<World>, steps: seq<Step>, i: nat, k: nat)
    requires Run(p, worlds, steps) && i <= k < |worlds| && Listed(worlds[i]).Some?
    ensures Listed(worlds[k]).Some?
    ensures Terminal(Listed(worlds[i]).value) ==> Listed(worlds[k]).value.status == Listed(worlds[i]).value.status
  {
    if i < k {
      TerminalStatusIsFinal(p, worlds, steps, i, k - 1);
      RunKeepsInv(p, worlds, steps, k - 1);
      StepKeepsStatus(p, worlds[k - 1], steps[k - 1]);
    }
  }

  // ---- Archival ----

  /** A record with an intent stays as it is until it is replaced by its archived form. */
  ghost predicate IntentHolds(r: Record, w: World)
    requires r.intent.Some?
  {
    w.active == Some(r) || (w.active.None? && w.archived == Some(ArchivedForm(r)))
  }

  lemma ArchiveStepHolds(p: Policy, w: World, r: Record, ok: bool)
    requires Inv(p, w) && r.intent.Some? && IntentHolds(r, w) && w.op.Archiving? && w.op.snapshot.intent.Some?
    ensures IntentHolds(r, ArchiveStep(p, w, w.op.snapshot, w.op.stage, ok))
  {
  }

  lemma StepHoldsIntent(p: Policy, w: World, r: Record, step: Step)
    requires Inv(p, w) && r.intent.Some? && IntentHolds(r, w)
    ensures Apply(p, w, step).Some? ==> IntentHolds(r, Apply(p, w, step).value)
  {
    if step.SArchive? { if w.op.Archiving? && w.op.snapshot.intent.Some? { ArchiveStepHolds(p, w, r, step.ok); } }
    else if step.SValidate? {
      if w.op.UnderWay? { assert w.op.attempt.stage.WriteManifest?; }
    }
    else if step.SClean? {
      assert w.active.Some? ==> w.active.value.(worktree := false, identity := None) == w.active.value;
    }
  }

  /** The archived record says what the record said, and that it was archived, and released if that was asked for,
      when the request was made. */
  ghost predicate ArchivedAs(r: Record, archived: Record)
    requires r.intent.Some?
  {
    && archived.status == r.status && archived.validations == r.validations && archived.finishedAt == r.finishedAt
    && archived.established == r.established && archived.compromised == r.compromised
    && archived.worktree == r.worktree && archived.identity == r.identity && archived.intent == None
    && archived.archivedAt == Some(r.intent.value.requestedAt)
    && archived.releasedAt == (if r.intent.value.release then Some(r.intent.value.requestedAt) else r.releasedAt)
  }

  /** Once an archive is requested, every crash point and every replay leads to the same archived
      record, which depends on nothing but the record the request was made on. */
  lemma {:induction false} ArchivalReplays(p: Policy, worlds: seq<World>, steps: seq<Step>, i: nat, k: nat, r: Record)
    requires Run(p, worlds, steps) && i <= k < |worlds| && r.intent.Some? && worlds[i].active == Some(r)
    ensures IntentHolds(r, worlds[k])
    ensures worlds[k].archived.Some? ==> worlds[k].archived == Some(ArchivedForm(r)) && ArchivedAs(r, worlds[k].archived.value)
  {
    RunKeepsInv(p, worlds, steps, k);
    if i < k {
      ArchivalReplays(p, worlds, steps, i, k - 1, r);
      RunKeepsInv(p, worlds, steps, k - 1);
      StepHoldsIntent(p, worlds[k - 1], r, steps[k - 1]);
    }
  }

  /** The broker deletes the ref only while it carries out a recorded intent to release it. */
  lemma ReleaseNeedsIntent(p: Policy, worlds: seq<World>, steps: seq<Step>, k: nat)
    requires Run(p, worlds, steps) && k < |steps| && !steps[k].SDeleteRef? && !steps[k].SMoveRef?
    requires worlds[k].ref == Direct(p.sha) && worlds[k + 1].ref != Direct(p.sha)
    ensures worlds[k].active.Some? && worlds[k].active.value.intent.Some? && worlds[k].active.value.intent.value.release
  {
    RunKeepsInv(p, worlds, steps, k);
  }

  /** And a submission archived without release still has whatever ref others left it. */
  lemma ArchivedWithoutRelease(p: Policy, worlds: seq<World>, steps: seq<Step>, k: nat)
    requires Run(p, worlds, steps) && k < |worlds| && worlds[k].active.None? && worlds[k].archived.Some?
    ensures worlds[k].archived.value.releasedAt.None? ==> !worlds[k].brokerReleased
    ensures worlds[k].manifest.Some? ==> worlds[k].manifest == worlds[k].archived
  {
    RunKeepsInv(p, worlds, steps, k);
  }

  /** An uninterrupted archival, and any recovery that gets to run, reaches the archive. */
  lemma ArchivalCompletes(p: Policy, w: World, r: Record)
    requires Inv(p, w) && w.op.Idle? && w.active == Some(r) && r.intent.Some? && Archivable(r)
    requires w.ref == Direct(p.sha) || (r.intent.value.release && w.ref.Missing?)
    ensures var w1 := BeginArchive(w).value;
            var w2 := ArchiveStep(p, w1, r, SettleRef, true);
            var w3 := ArchiveStep(p, w2, r, WriteArchive, true);
            var w4 := ArchiveStep(p, w3, r, ArchiveManifest, true);
            var w5 := ArchiveStep(p, w4, r, DropActive, true);
            BeginArchive(w).Some? && w5.active.None? && w5.archived == Some(ArchivedForm(r)) && w5.manifest == w5.archived
  {
  }

  /** A failed or finished validation never claims, in its manifest, what the state does not say. */
  lemma ManifestFollowsState(p: Policy, worlds: seq<World>, steps: seq<Step>, k: nat)
    requires Run(p, worlds, steps) && k < |worlds| && worlds[k].manifest.Some?
    ensures Listed(worlds[k]).Some? && Terminal(worlds[k].manifest.value)
    ensures worlds[k].manifest.value.status == Listed(worlds[k]).value.status
  {
    RunKeepsInv(p, worlds, steps, k);
  }

  // ---- Listing many submissions ----

  type SubmissionId = nat

  /** `submissions`: archived records first, then active ones over them, so that a submission between its
      archive entry and the removal of its active record is listed once, as the active record. */
  class SubmissionStore {
    var active: map<SubmissionId, Record>
    var archived: map<SubmissionId, Record>

    constructor (a: map<SubmissionId, Record>, b: map<SubmissionId, Record>)
      ensures active == a && archived == b
    {
      active, archived := a, b;
    }

    method Submissions(includeArchived: bool) returns (listing: seq<(SubmissionId, Record)>)
      ensures forall i, j | 0 <= i < j < |listing| :: listing[i].0 != listing[j].0
      ensures forall id :: (exists i | 0 <= i < |listing| :: listing[i].0 == id)
                           <==> id in active || (includeArchived && id in archived)
      ensures forall i | 0 <= i < |listing| ::
                var (id, r) := listing[i];
                r == if id in active then active[id] else if id in archived then archived[id] else r
    {
      var records: map<SubmissionId, Record> := map[];
      if includeArchived { records := Overlaid(records, archived); }
      records := Overlaid(records, active);
      listing := Values(records);
    }
  }

  /** `records.set` for every entry of `over`. */
  method Overlaid(base: map<SubmissionId, Record>, over: map<SubmissionId, Record>) returns (records: map<SubmissionId, Record>)
    ensures records == base + over
  {
    records := base;
    var left := over.Keys;
    while left != {}
      invariant left <= over.Keys
      invariant records == base + map id | id in over && id !in left :: over[id]
      decreases left
    {
      var id :| id in left;
      left := left - {id};
      records := records[id := over[id]];
    }
  }

  method Values(records: map<SubmissionId, Record>) returns (listing: seq<(SubmissionId, Record)>)
    ensures forall i, j | 0 <= i < j < |listing| :: listing[i].0 != listing[j].0
    ensures forall id :: (exists i | 0 <= i < |listing| :: listing[i].0 == id) <==> id in records
    ensures forall i | 0 <= i < |listing| :: listing[i].0 in records && listing[i].1 == records[listing[i].0]
  {
    listing := [];
    var left := records.Keys;
    while left != {}
      invariant left <= records.Keys
      invariant forall i, j | 0 <= i < j < |listing| :: listing[i].0 != listing[j].0
      invariant forall i | 0 <= i < |listing| :: listing[i].0 in records && listing[i].0 !in left && listing[i].1 == records[listing[i].0]
      invariant forall id | id in records && id !in left :: exists i | 0 <= i < |listing| :: listing[i].0 == id
      decreases left
    {
      var id :| id in left;
      left := left - {id};
      ghost var before := listing;
      listing := listing + [(id, records[id])];
      forall k | k in records && k !in left ensures exists i | 0 <= i < |listing| :: listing[i].0 == k {
        if k == id {
          assert listing[|before|].0 == k;
        } else {
          var i :| 0 <= i < |before| && before[i].0 == k;
          assert listing[i].0 == k;
        }
      }
    }
  }
}
