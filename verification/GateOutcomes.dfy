/**
 Why a Gate submission ended as it did. Rejection is the worker's fault and failure is not, so each is
 traced to the step of the attempt that decided it; and an attempt that nothing disturbs ends as its
 validators say.
 */
module GateOutcomes {
  import opened Common
  import opened Gate
  import opened GateSafety

  // ---- What can end the checks of an attempt ----

  /** A validator said no, or changed the worktree it was to judge. */
  predicate Blames(w: World, step: Step) {
    w.op.UnderWay? && step.SValidate?
    && match w.op.attempt.stage
       case RunFocused => step.ans.verdict.OneFailed?
       case RunAuthoritative => step.ans.verdict.OneFailed?
       case CheckFocused => w.tree == Absent || !w.tree.intact
       case CheckAuthoritative => w.tree == Absent || !w.tree.intact
       case _ => false
  }

  /** Anything else: an exception before cleanup, a validator that could not be run, Git or the host
      refusing, a ref that is not at the recorded commit, or a cache that could not be removed. */
  predicate Breaks(p: Policy, w: World, step: Step) {
    w.op.UnderWay?
    && if step.SThrow? then InTry(w.op.attempt.stage)
       else step.SValidate?
            && match w.op.attempt.stage
               case RunFocused => step.ans.verdict.Broke?
               case RunAuthoritative => step.ans.verdict.Broke?
               case Identify => !step.ans.ok
               case Clear => !step.ans.ok
               case Prepare => !step.ans.ok
               case AddWorktree => !step.ans.ok
               case Pin => w.ref != Direct(p.sha) && w.ref != Missing
               case EnsureFirst(e) => !e.Journal? && w.ref != Direct(p.sha) && (w.ref != Missing || e.Verify?)
               case CleanCache => !step.ans.ok && w.op.attempt.terminal == Validated
               case _ => false
  }

  function TerminalOf(w: World): Status {
    if w.op.UnderWay? then w.op.attempt.terminal else Received
  }

  /** The verdict changes exactly at these steps, and otherwise only ends with the attempt. */
  ghost predicate HasCause(p: Policy, w: World, step: Step, t: World) {
    && (TerminalOf(t) == Rejected <==> Blames(w, step) || (TerminalOf(w) == Rejected && t.op.UnderWay?))
    && (TerminalOf(t) == Failed <==> Breaks(p, w, step) || (TerminalOf(w) == Failed && t.op.UnderWay?))
  }

  lemma RefAnswer(p: Policy, w: World, a: Attempt, ans: Answer)
    requires Attempting(p, w, a) && (a.stage == Pin || a.stage.EnsureFirst? || a.stage.EnsureLast?)
    ensures HasCause(p, w, SValidate(ans), ValidationStep(p, w, a, ans))
  {
  }

  lemma ValidatorAnswer(p: Policy, w: World, a: Attempt, ans: Answer)
    requires Attempting(p, w, a)
    requires a.stage == RunFocused || a.stage == CheckFocused || a.stage == RunAuthoritative || a.stage == CheckAuthoritative
    ensures HasCause(p, w, SValidate(ans), ValidationStep(p, w, a, ans))
  {
  }

  lemma HostAnswer(p: Policy, w: World, a: Attempt, ans: Answer)
    requires Attempting(p, w, a) && a.stage != Pin && !a.stage.EnsureFirst? && !a.stage.EnsureLast? && InTry(a.stage)
    requires a.stage != RunFocused && a.stage != CheckFocused && a.stage != RunAuthoritative && a.stage != CheckAuthoritative
    ensures HasCause(p, w, SValidate(ans), ValidationStep(p, w, a, ans))
  {
  }

  lemma LateAnswer(p: Policy, w: World, a: Attempt, ans: Answer)
    requires Attempting(p, w, a) && !InTry(a.stage) && !a.stage.EnsureLast?
    ensures HasCause(p, w, SValidate(ans), ValidationStep(p, w, a, ans))
  {
  }

  lemma AnswerHasCause(p: Policy, w: World, a: Attempt, ans: Answer)
    requires Attempting(p, w, a)
    ensures HasCause(p, w, SValidate(ans), ValidationStep(p, w, a, ans))
  {
    if a.stage == Pin || a.stage.EnsureFirst? || a.stage.EnsureLast? { RefAnswer(p, w, a, ans); }
    else if !InTry(a.stage) { LateAnswer(p, w, a, ans); }
    else if a.stage == RunFocused || a.stage == CheckFocused || a.stage == RunAuthoritative || a.stage == CheckAuthoritative {
      ValidatorAnswer(p, w, a, ans);
    } else { HostAnswer(p, w, a, ans); }
  }

  /** The step that turns an attempt away from validation is of one kind or the other, and says which. */
  lemma VerdictHasCause(p: Policy, w: World, step: Step)
    requires Inv(p, w) && Apply(p, w, step).Some?
    ensures HasCause(p, w, step, Apply(p, w, step).value)
  {
    if step.SValidate? && w.op.UnderWay? { AnswerHasCause(p, w, w.op.attempt, step.ans); }
  }

  /** The attempt that is under way at `k` was under way from `j` on, and it was past its checks since. */
  ghost predicate SameAttempt(worlds: seq<World>, j: nat, k: nat)
    requires j < k < |worlds|
  {
    worlds[j].op.UnderWay?
    && forall i | j < i <= k :: worlds[i].op.UnderWay? && !InTry(worlds[i].op.attempt.stage)
  }

  lemma StepOf(p: Policy, worlds: seq<World>, steps: seq<Step>, i: nat)
    requires Run(p, worlds, steps) && i < |steps|
    ensures Apply(p, worlds[i], steps[i]) == Some(worlds[i + 1])
  {
  }

  lemma {:induction false} RejectionHasCause(p: Policy, worlds: seq<World>, steps: seq<Step>, k: nat) returns (j: nat)
    requires Run(p, worlds, steps) && k < |worlds| && TerminalOf(worlds[k]) == Rejected
    ensures j < k && Blames(worlds[j], steps[j]) && SameAttempt(worlds, j, k)
  {
    RunKeepsInv(p, worlds, steps, k);
    if k > 0 {
      RunKeepsInv(p, worlds, steps, k - 1);
      StepOf(p, worlds, steps, k - 1);
      VerdictHasCause(p, worlds[k - 1], steps[k - 1]);
      j := k - 1;
      if !Blames(worlds[k - 1], steps[k - 1]) { j := RejectionHasCause(p, worlds, steps, k - 1); }
    }
  }

  lemma {:induction false} FailureHasCause(p: Policy, worlds: seq<World>, steps: seq<Step>, k: nat) returns (j: nat)
    requires Run(p, worlds, steps) && k < |worlds| && TerminalOf(worlds[k]) == Failed
    ensures j < k && Breaks(p, worlds[j], steps[j]) && SameAttempt(worlds, j, k)
  {
    RunKeepsInv(p, worlds, steps, k);
    if k > 0 {
      RunKeepsInv(p, worlds, steps, k - 1);
      StepOf(p, worlds, steps, k - 1);
      VerdictHasCause(p, worlds[k - 1], steps[k - 1]);
      j := k - 1;
      if !Breaks(p, worlds[k - 1], steps[k - 1]) { j := FailureHasCause(p, worlds, steps, k - 1); }
    }
  }

  /** Step `k` is the one at which the submission's record says `status`. */
  ghost predicate Becomes(worlds: seq<World>, k: nat, status: Status)
    requires k + 1 < |worlds|
  {
    PendingActive(worlds[k]) && worlds[k + 1].active.Some? && worlds[k + 1].active.value.status == status
  }

  lemma CommitDecides(p: Policy, w: World, step: Step)
    requires Inv(p, w) && PendingActive(w) && Apply(p, w, step).Some?
    requires Apply(p, w, step).value.active.Some?
    requires Apply(p, w, step).value.active.value.status == Rejected || Apply(p, w, step).value.active.value.status == Failed
    ensures w.op.UnderWay? && w.op.attempt.stage.Commit? && step.SValidate?
    ensures var s := Apply(p, w, step).value.active.value.status;
            s == w.op.attempt.terminal || (s == Failed && w.op.attempt.terminal == Validated && w.active.value.compromised)
  {
    if step.SValidate? && w.op.UnderWay? && !w.op.attempt.stage.Commit? { StatusMovesOnlyAtCommit(p, w, w.op.attempt, step.ans); }
  }

  /** A submission becomes rejected only on the word of a validator, or because a worktree check found a
      change: at one step of the very attempt that commits it, after which nothing else was tried. */
  lemma RejectedIsBlamed(p: Policy, worlds: seq<World>, steps: seq<Step>, k: nat) returns (j: nat)
    requires Run(p, worlds, steps) && k < |steps| && Becomes(worlds, k, Rejected)
    ensures j < k && Blames(worlds[j], steps[j]) && SameAttempt(worlds, j, k)
  {
    RunKeepsInv(p, worlds, steps, k);
    StepOf(p, worlds, steps, k);
    CommitDecides(p, worlds[k], steps[k]);
    j := RejectionHasCause(p, worlds, steps, k);
  }

  /** It becomes failed only if something else broke in that attempt, or all its validators passed and the
      loss of its ref is on record. */
  lemma FailedIsBroken(p: Policy, worlds: seq<World>, steps: seq<Step>, k: nat) returns (j: nat)
    requires Run(p, worlds, steps) && k < |steps| && Becomes(worlds, k, Failed)
    ensures || (j < k && Breaks(p, worlds[j], steps[j]) && SameAttempt(worlds, j, k))
            || (worlds[k].active.value.compromised && worlds[k].op.UnderWay? && AllRan(p, worlds[k].op.attempt))
  {
    RunKeepsInv(p, worlds, steps, k);
    StepOf(p, worlds, steps, k);
    CommitDecides(p, worlds[k], steps[k]);
    if worlds[k].op.attempt.terminal == Failed { j := FailureHasCause(p, worlds, steps, k); } else { j := 0; }
  }

  // ---- An attempt that nothing disturbs ----

  /** Git, the host and the worktree do as they are asked; the validators answer as given. */
  function Calm(a: Attempt, focused: Verdict, authoritative: Verdict): Answer {
    Answer(true, if a.stage == RunFocused then focused else authoritative, true, 0)
  }

  /** The attempt, `n` steps on. */
  function Go(p: Policy, w: World, focused: Verdict, authoritative: Verdict, n: nat): World
    decreases n
  {
    if n == 0 || !w.op.UnderWay? then w
    else Go(p, ValidationStep(p, w, w.op.attempt, Calm(w.op.attempt, focused, authoritative)), focused, authoritative, n - 1)
  }

  /** What the submission comes to, and the results on its record. */
  function Verdicts(p: Policy, focused: Verdict, authoritative: Verdict): (Status, seq<Validation>) {
    match focused
    case Broke => (Failed, [])
    case OneFailed(some) => (Rejected, some)
    case AllPassed =>
      match authoritative
      case Broke => (Failed, Passing(Focused, p.focused))
      case OneFailed(more) => (Rejected, Passing(Focused, p.focused) + more)
      case AllPassed => (Validated, Passing(Focused, p.focused) + Passing(Authoritative, p.authoritative))
  }

  /** The broker holds the ref, nothing has gone wrong with the record, and the attempt is at this stage. */
  ghost predicate At(p: Policy, w: World, stage: Stage, terminal: Status, validations: seq<Validation>) {
    && w.op.UnderWay? && w.op.attempt.stage == stage && w.op.attempt.terminal == terminal && w.op.attempt.validations == validations
    && w.ref == Direct(p.sha)
    && w.active.Some? && w.active.value.status == Validating && !w.active.value.compromised
  }

  ghost predicate Intact(w: World) {
    w.tree.Present? && w.tree.intact
  }

  lemma Onward(p: Policy, w: World, f: Verdict, v: Verdict, n: nat, m: nat)
    ensures Go(p, w, f, v, n + m) == Go(p, Go(p, w, f, v, n), f, v, m)
    decreases n
  {
    if n > 0 && w.op.UnderWay? {
      Onward(p, ValidationStep(p, w, w.op.attempt, Calm(w.op.attempt, f, v)), f, v, n - 1, m);
    }
  }

  function Once(p: Policy, w: World, f: Verdict, v: Verdict): World
    requires w.op.UnderWay?
  {
    ValidationStep(p, w, w.op.attempt, Calm(w.op.attempt, f, v))
  }

  lemma OneStep(p: Policy, w: World, f: Verdict, v: Verdict)
    requires w.op.UnderWay?
    ensures Go(p, w, f, v, 1) == Once(p, w, f, v)
  {
    assert Go(p, Once(p, w, f, v), f, v, 0) == Once(p, w, f, v);
  }

  lemma TwoSteps(p: Policy, w: World, f: Verdict, v: Verdict)
    requires w.op.UnderWay? && Once(p, w, f, v).op.UnderWay?
    ensures Go(p, w, f, v, 2) == Once(p, Once(p, w, f, v), f, v)
  {
    Onward(p, w, f, v, 1, 1);
    OneStep(p, w, f, v);
    OneStep(p, Once(p, w, f, v), f, v);
  }

  lemma FirstSteps(p: Policy, w: World, f: Verdict, v: Verdict)
    requires At(p, w, Identify, Validated, [])
    ensures At(p, Go(p, w, f, v, 2), Prepare, Validated, [])
  {
    TwoSteps(p, w, f, v);
  }

  lemma PrepareSteps(p: Policy, w: World, f: Verdict, v: Verdict)
    requires At(p, w, Prepare, Validated, [])
    ensures At(p, Go(p, w, f, v, 2), AddWorktree, Validated, []) && Intact(Go(p, w, f, v, 2))
  {
    TwoSteps(p, w, f, v);
  }

  lemma WorktreeSteps(p: Policy, w: World, f: Verdict, v: Verdict)
    requires At(p, w, AddWorktree, Validated, []) && Intact(w)
    ensures At(p, Go(p, w, f, v, 2), RunFocused, Validated, []) && Intact(Go(p, w, f, v, 2))
  {
    TwoSteps(p, w, f, v);
  }

  lemma FocusedPasses(p: Policy, w: World, v: Verdict)
    requires At(p, w, RunFocused, Validated, []) && Intact(w)
    ensures var t := Go(p, w, AllPassed, v, 2); At(p, t, RunAuthoritative, Validated, Passing(Focused, p.focused)) && Intact(t)
  {
    TwoSteps(p, w, AllPassed, v);
    assert [] + Passing(Focused, p.focused) == Passing(Focused, p.focused);
  }

  lemma FocusedStops(p: Policy, w: World, f: Verdict, v: Verdict)
    requires At(p, w, RunFocused, Validated, []) && !f.AllPassed?
    ensures At(p, Go(p, w, f, v, 1), CleanCache, Verdicts(p, f, v).0, Verdicts(p, f, v).1)
  {
    OneStep(p, w, f, v);
    if f.OneFailed? { assert [] + f.completed == f.completed; }
  }

  lemma AuthoritativePasses(p: Policy, w: World)
    requires At(p, w, RunAuthoritative, Validated, Passing(Focused, p.focused)) && Intact(w)
    ensures var r := Verdicts(p, AllPassed, AllPassed); At(p, Go(p, w, AllPassed, AllPassed, 2), CleanCache, r.0, r.1)
  {
    TwoSteps(p, w, AllPassed, AllPassed);
  }

  lemma AuthoritativeStops(p: Policy, w: World, v: Verdict)
    requires At(p, w, RunAuthoritative, Validated, Passing(Focused, p.focused)) && !v.AllPassed?
    ensures var r := Verdicts(p, AllPassed, v); At(p, Go(p, w, AllPassed, v, 1), CleanCache, r.0, r.1)
  {
    OneStep(p, w, AllPassed, v);
  }

  lemma CleaningSteps(p: Policy, w: World, f: Verdict, v: Verdict, terminal: Status, done: seq<Validation>)
    requires At(p, w, CleanCache, terminal, done)
    ensures At(p, Go(p, w, f, v, 2), EnsureLast(Check), terminal, done)
  {
    TwoSteps(p, w, f, v);
  }

  ghost predicate Committing(p: Policy, w: World, terminal: Status, done: seq<Validation>) {
    w.op.UnderWay? && w.op.attempt.stage.Reprove? && At(p, w, w.op.attempt.stage, terminal, done)
    && w.op.attempt.stage.finished.status == terminal && w.op.attempt.stage.finished.validations == done
  }

  lemma ClosingSteps(p: Policy, w: World, f: Verdict, v: Verdict, terminal: Status, done: seq<Validation>)
    requires At(p, w, EnsureLast(Check), terminal, done)
    ensures Committing(p, Go(p, w, f, v, 2), terminal, done)
  {
    TwoSteps(p, w, f, v);
  }

  lemma CommitSteps(p: Policy, w: World, f: Verdict, v: Verdict, terminal: Status, done: seq<Validation>)
    requires Committing(p, w, terminal, done)
    ensures EndsAs(Go(p, w, f, v, 2), (terminal, done))
  {
    TwoSteps(p, w, f, v);
  }

  lemma Ending(p: Policy, w: World, f: Verdict, v: Verdict, terminal: Status, done: seq<Validation>) returns (n: nat)
    requires At(p, w, CleanCache, terminal, done)
    ensures EndsAs(Go(p, w, f, v, n), (terminal, done))
  {
    CleaningSteps(p, w, f, v, terminal, done);
    var w1 := Go(p, w, f, v, 2);
    ClosingSteps(p, w1, f, v, terminal, done);
    CommitSteps(p, Go(p, w1, f, v, 2), f, v, terminal, done);
    n := InARow(p, w, f, v, 2, 2, 2);
  }

  /** Three stretches in a row are one. */
  lemma InARow(p: Policy, w: World, f: Verdict, v: Verdict, a: nat, b: nat, c: nat) returns (n: nat)
    ensures Go(p, w, f, v, n) == Go(p, Go(p, Go(p, w, f, v, a), f, v, b), f, v, c)
  {
    n := a + (b + c);
    Onward(p, w, f, v, a, b + c);
    Onward(p, Go(p, w, f, v, a), f, v, b, c);
  }

  lemma Opening(p: Policy, w: World, f: Verdict, v: Verdict) returns (n: nat)
    requires At(p, w, Identify, Validated, [])
    ensures At(p, Go(p, w, f, v, n), RunFocused, Validated, []) && Intact(Go(p, w, f, v, n))
  {
    FirstSteps(p, w, f, v);
    PrepareSteps(p, Go(p, w, f, v, 2), f, v);
    WorktreeSteps(p, Go(p, Go(p, w, f, v, 2), f, v, 2), f, v);
    n := InARow(p, w, f, v, 2, 2, 2);
  }

  ghost predicate EndsAs(w: World, r: (Status, seq<Validation>)) {
    w.active.Some? && w.active.value.status == r.0 && w.active.value.validations == r.1
  }

  /** From the validators on, however far they get. */
  lemma Judged(p: Policy, w: World, f: Verdict, v: Verdict) returns (n: nat)
    requires At(p, w, RunFocused, Validated, []) && Intact(w)
    ensures var r := Verdicts(p, f, v); At(p, Go(p, w, f, v, n), CleanCache, r.0, r.1)
  {
    if !f.AllPassed? {
      n := 1;
      FocusedStops(p, w, f, v);
    } else {
      FocusedPasses(p, w, v);
      var t := Go(p, w, f, v, 2);
      if v.AllPassed? {
        n := 4;
        AuthoritativePasses(p, t);
        Onward(p, w, f, v, 2, 2);
      } else {
        n := 3;
        AuthoritativeStops(p, t, v);
        Onward(p, w, f, v, 2, 1);
      }
    }
  }

  /** The steps that see to the ref, for the first time or again. */
  lemma RefSteps(p: Policy, w: World, f: Verdict, v: Verdict) returns (n: nat)
    requires Inv(p, w) && w.op.Idle? && PendingActive(w) && !w.active.value.compromised
    requires w.ref == Direct(p.sha) || (w.ref.Missing? && !w.active.value.established)
    ensures BeginValidation(w).Some? && At(p, Go(p, BeginValidation(w).value, f, v, n), Identify, Validated, [])
  {
    var t := BeginValidation(w).value;
    if w.active.value.established {
      n := 1;
      OneStep(p, t, f, v);
    } else {
      n := 2;
      TwoSteps(p, t, f, v);
    }
  }

  lemma FromValidators(p: Policy, w: World, f: Verdict, v: Verdict) returns (n: nat)
    requires At(p, w, RunFocused, Validated, []) && Intact(w)
    ensures EndsAs(Go(p, w, f, v, n), Verdicts(p, f, v))
  {
    var b := Judged(p, w, f, v);
    var (terminal, done) := Verdicts(p, f, v);
    var c := Ending(p, Go(p, w, f, v, b), f, v, terminal, done);
    n := b + c;
    Onward(p, w, f, v, b, c);
  }

  lemma FromIdentify(p: Policy, w: World, f: Verdict, v: Verdict) returns (n: nat)
    requires At(p, w, Identify, Validated, [])
    ensures EndsAs(Go(p, w, f, v, n), Verdicts(p, f, v))
  {
    var a := Opening(p, w, f, v);
    var b := FromValidators(p, Go(p, w, f, v, a), f, v);
    n := a + b;
    Onward(p, w, f, v, a, b);
  }

  /** An attempt that nothing disturbs ends as its validators say: validated if all passed, rejected if one
      failed, failed if one could not be run, and the record has exactly the results there are. */
  lemma CalmAttemptEnds(p: Policy, w: World, f: Verdict, v: Verdict) returns (n: nat)
    requires Inv(p, w) && w.op.Idle? && PendingActive(w) && !w.active.value.compromised
    requires w.ref == Direct(p.sha) || (w.ref.Missing? && !w.active.value.established)
    ensures BeginValidation(w).Some?
    ensures EndsAs(Go(p, BeginValidation(w).value, f, v, n), Verdicts(p, f, v))
  {
    var a := RefSteps(p, w, f, v);
    var t := BeginValidation(w).value;
    var b := FromIdentify(p, Go(p, t, f, v, a), f, v);
    n := a + b;
    Onward(p, t, f, v, a, b);
  }
}
