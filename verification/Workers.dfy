/** The order in which an executor commits its transactions for one lease, and what every run in
    that order keeps (src/packages/translation/execution.py, src/packages/preparation/execution.py,
    src/packages/providers/connection.py, src/workers/main.py). */
module Workers {
  import opened Wrappers
  import opened Rows
  import opened Queue
  import opened Ledger
  import opened Executor
  import opened Control
  import opened Steps
  import opened Safety
  import opened Runs

  /** What the executor of an attempt has committed so far: nothing, the authorization of its
      request, the settlement of its answer, or its last word. */
  datatype Phase = Fresh | Sent | Answered | Done

  function PhaseOf(phases: seq<Phase>, a: nat): Phase {
    if a < |phases| then phases[a] else Done
  }

  /** Where in its own code an executor takes the step. A lease is given back, and a prompt found too
      large, before the authorization; a provider failure names what became of a request that was
      authorized; an invalid answer is reported only after its settlement; a connection test stops
      without an outcome before the authorization or after the settlement. Marking and releasing are
      parts of these reports, not transactions of their own. The failure branch may follow anything. */
  ghost predicate Allowed(s: State, phases: seq<Phase>, step: Step) {
    match step
    case Wait(l, _, _, _) => Issued(s, l) ==> PhaseOf(phases, l.attempt).Fresh?
    case AuthorizeDispatch(l, _, _, _, _, _) => Issued(s, l) ==> PhaseOf(phases, l.attempt).Fresh?
    case SettlePermit(a, _, _) => a < |s.attempts| ==> PhaseOf(phases, a).Sent?
    case Retry(l, outcome, code, _, _, _, _) => Issued(s, l) ==> MayReport(PhaseOf(phases, l.attempt), outcome, code)
    case StopConnectionTest(l, _, _, _, result) => Issued(s, l) ==> MayStop(PhaseOf(phases, l.attempt), result)
    case MarkUncertain(_) => false
    case Release(_) => false
    case FinishTask(l, _, _, _) =>
      Issued(s, l) ==> PhaseOf(phases, l.attempt).Fresh? || PhaseOf(phases, l.attempt).Answered?
    case Cleanup(l, _) => Issued(s, l) ==> PhaseOf(phases, l.attempt).Fresh?
    case _ => true
  }

  predicate MayReport(phase: Phase, outcome: Outcome, code: string) {
    match outcome
    case NotSent => phase.Sent? || (phase.Fresh? && code == "UNIT_TOO_LARGE")
    case ExecutedInvalid => phase.Answered?
    case _ => phase.Sent?
  }

  predicate MayStop(phase: Phase, result: Option<Outcome>) {
    match result
    case None => phase.Fresh? || phase.Answered?
    case Some(outcome) => phase.Sent? && !outcome.ExecutedInvalid?
  }

  /** A refused transaction leaves the executor where it was, unless its next word is the failure branch. */
  function Advance(s: State, phases: seq<Phase>, step: Step): seq<Phase> {
    match step
    case ClaimTask(scene, seconds) => if Claim(s, scene, seconds).Some? then phases + [Fresh] else phases
    case AuthorizeDispatch(l, now, memo, amount, price, current) =>
      if Issued(s, l) && Authorize(s, l, now, memo, amount, price, current).Success? then
        SetPhase(phases, l.attempt, Sent) else phases
    case SettlePermit(a, usage, request) =>
      if a < |s.attempts| && Settle(s, a, usage, request).Success? then SetPhase(phases, a, Answered) else phases
    case Wait(l, _, _, _) => SetPhase(phases, l.attempt, Done)
    case Retry(l, _, _, _, _, _, _) => SetPhase(phases, l.attempt, Done)
    case StopConnectionTest(l, _, _, _, _) => SetPhase(phases, l.attempt, Done)
    case FinishTask(l, _, _, _) => SetPhase(phases, l.attempt, Done)
    case FailTask(l, _) => SetPhase(phases, l.attempt, Done)
    case Cleanup(l, _) => SetPhase(phases, l.attempt, Done)
    case _ => phases
  }

  function SetPhase(phases: seq<Phase>, a: nat, phase: Phase): seq<Phase> {
    if a < |phases| then phases[a := phase] else phases
  }

  function Phases(s: State, steps: seq<Step>): seq<Phase>
    decreases |steps|
  {
    if steps == [] then []
    else Advance(Run(s, steps[..|steps| - 1]), Phases(s, steps[..|steps| - 1]), steps[|steps| - 1])
  }

  /** Every executor keeps its own order; otherwise anything may happen between its transactions. */
  ghost predicate OrderedRun(s: State, steps: seq<Step>)
    decreases |steps|
  {
    steps == []
    || (OrderedRun(s, steps[..|steps| - 1])
        && Allowed(Run(s, steps[..|steps| - 1]), Phases(s, steps[..|steps| - 1]), steps[|steps| - 1]))
  }

  lemma {:induction false} OrderedPrefix(s: State, steps: seq<Step>, n: nat)
    requires n <= |steps| && OrderedRun(s, steps)
    ensures OrderedRun(s, steps[..n])
    ensures n < |steps| ==> Allowed(Run(s, steps[..n]), Phases(s, steps[..n]), steps[n])
    decreases |steps|
  {
    if n < |steps| {
      var last := |steps| - 1;
      if n < last { OrderedPrefix(s, steps[..last], n); assert steps[..last][..n] == steps[..n]; }
    } else {
      assert steps[..n] == steps;
    }
  }

  /** What an executor's phase says about its permit. */
  ghost predicate Fits(a: AttemptRow, phase: Phase) {
    match phase
    case Fresh => a.permit.None?
    case Sent => Holds(a, PermitState.Reserved) || Holds(a, PermitState.Unknown)
    case Answered => Holds(a, PermitState.Settled)
    case Done => true
  }

  ghost predicate InOrder(s: State, phases: seq<Phase>) {
    |phases| == |s.attempts| && forall a :: 0 <= a < |phases| ==> Fits(s.attempts[a], phases[a])
  }

  /** The permit stays, or its outcome became uncertain. */
  ghost predicate StaysOrDoubted(a: AttemptRow, b: AttemptRow) {
    b.permit == a.permit || (Holds(a, PermitState.Reserved) && b.permit ==
      Some(a.permit.value.(state := PermitState.Unknown)))
  }

  ghost predicate OnlyDoubts(s: State, r: State) {
    |s.attempts| == |r.attempts| && forall a :: 0 <= a < |s.attempts| ==> StaysOrDoubted(s.attempts[a], r.attempts[a])
  }

  lemma {:induction false} OnlyDoubtsTrans(s: State, m: State, r: State)
    requires OnlyDoubts(s, m) && OnlyDoubts(m, r)
    ensures OnlyDoubts(s, r)
  {
    forall a | 0 <= a < |s.attempts| ensures StaysOrDoubted(s.attempts[a], r.attempts[a]) {
      assert StaysOrDoubted(s.attempts[a], m.attempts[a]) && StaysOrDoubted(m.attempts[a], r.attempts[a]);
    }
  }

  lemma {:induction false} RecoverOnlyDoubts(s: State, now: nat, order: seq<nat>)
    ensures OnlyDoubts(s, RecoverAll(s, now, order))
    decreases |order|
  {
    if order != [] {
      var m := if Expired(s, order[0], now) then RecoverTask(s, order[0]) else s;
      assert OnlyDoubts(s, m);
      RecoverOnlyDoubts(m, now, order[1..]);
      OnlyDoubtsTrans(s, m, RecoverAll(m, now, order[1..]));
    }
  }

  lemma {:induction false} UncertainOnlyDoubts(s: State, n: nat)
    requires n <= |s.attempts|
    ensures OnlyDoubts(s, UncertainInflight(s, n))
  {
    if n > 0 {
      UncertainOnlyDoubts(s, n - 1);
      var m := UncertainInflight(s, n - 1);
      assert OnlyDoubts(m, UncertainOne(m, n - 1));
      OnlyDoubtsTrans(s, m, UncertainInflight(s, n));
    }
  }

  /** The transactions that issue, settle or classify a permit, and claims. */
  ghost predicate Accounts(step: Step) {
    || step.ClaimTask? || step.AuthorizeDispatch? || step.SettlePermit? || step.Retry? || step.StopConnectionTest?
    || step.MarkUncertain? || step.Release?
  }

  lemma {:induction false} LeaseStepOnlyDoubts(s: State, step: Step)
    requires step.RenewLease? || step.FinishTask? || step.FailTask? || step.Wait?
    ensures OnlyDoubts(s, Apply(s, step))
  {}

  lemma {:induction false} CleanupOnlyDoubts(s: State, step: Step)
    requires step.Cleanup?
    ensures OnlyDoubts(s, Apply(s, step))
  {}

  lemma {:induction false} CommandOnlyDoubts(s: State, step: Step)
    requires step.Command? || step.Dispatch? || step.Resolve? || step.Enqueue? || step.AddTask? || step.Checkpoint?
    ensures OnlyDoubts(s, Apply(s, step))
  {}

  lemma {:induction false} DocumentStepOnlyDoubts(s: State, step: Step)
    requires step.DeleteDocument? || step.ReplaceSource? || step.ContinueDraft?
    ensures OnlyDoubts(s, Apply(s, step))
  {}

  lemma {:induction false} StepOnlyDoubts(s: State, step: Step)
    requires !Accounts(step)
    ensures OnlyDoubts(s, Apply(s, step))
  {
    match step
    case Recover(now, order) => RecoverOnlyDoubts(s, now, order);
    case Maintenance(enabled, disabled) =>
      UncertainOnlyDoubts(s.(settings := s.settings.(maintenance := enabled, dispatchDisabled := disabled)),
        |s.attempts|);
    case Cleanup(_, _) => CleanupOnlyDoubts(s, step);
    case _ =>
      if step.RenewLease? || step.FinishTask? || step.FailTask? || step.Wait? { LeaseStepOnlyDoubts(s, step); }
      else if step.DeleteDocument? || step.ReplaceSource? || step.ContinueDraft? { DocumentStepOnlyDoubts(s, step); }
      else { CommandOnlyDoubts(s, step); }
  }

  lemma {:induction false} DoubtsKeepOrder(s: State, r: State, phases: seq<Phase>, next: seq<Phase>)
    requires InOrder(s, phases) && OnlyDoubts(s, r) && |next| == |phases|
    requires forall a :: 0 <= a < |phases| ==> next[a] == phases[a] || next[a].Done?
    ensures InOrder(r, next)
  {
    forall a | 0 <= a < |next| ensures Fits(r.attempts[a], next[a]) {
      assert StaysOrDoubted(s.attempts[a], r.attempts[a]) && Fits(s.attempts[a], phases[a]);
    }
  }

  /** One attempt is rewritten, and its new phase fits. */
  lemma {:induction false} OneMovesOn(s: State, r: State, phases: seq<Phase>, a: nat, phase: Phase)
    requires InOrder(s, phases) && a < |s.attempts| && |r.attempts| == |s.attempts|
    requires r.attempts == s.attempts[a := r.attempts[a]] && Fits(r.attempts[a], phase)
    ensures InOrder(r, phases[a := phase])
  {}

  lemma {:induction false} AuthorizeInOrder(s: State, phases: seq<Phase>, step: Step)
    requires InOrder(s, phases) && step.AuthorizeDispatch?
    ensures InOrder(Apply(s, step), Advance(s, phases, step))
  {
    if Issued(s, step.lease) {
      OneMovesOn(s, Apply(s, step), phases, step.lease.attempt,
        if Apply(s, step) == s then phases[step.lease.attempt] else Sent);
    }
  }

  lemma {:induction false} SettleInOrder(s: State, phases: seq<Phase>, step: Step)
    requires InOrder(s, phases) && step.SettlePermit?
    ensures InOrder(Apply(s, step), Advance(s, phases, step))
  {
    if step.attempt < |s.attempts| && Settle(s, step.attempt, step.usage, step.request).Success? {
      OneMovesOn(s, Apply(s, step), phases, step.attempt, Answered);
    }
  }

  lemma {:induction false} ClaimInOrder(s: State, phases: seq<Phase>, step: Step)
    requires InOrder(s, phases) && step.ClaimTask?
    ensures InOrder(Apply(s, step), Advance(s, phases, step))
  {}

  lemma {:induction false} ReportInOrder(s: State, phases: seq<Phase>, step: Step)
    requires InOrder(s, phases) && (step.Retry? || step.StopConnectionTest?)
    ensures InOrder(Apply(s, step), Advance(s, phases, step))
  {
    if Issued(s, step.lease) {
      if step.Retry? {
        RetryRewrites(s, step.lease, step.outcome, step.code, step.now, step.delay, step.repaired, step.finalized);
      }
      else { StopTestRewrites(s, step); }
      OneMovesOn(s, Apply(s, step), phases, step.lease.attempt, Done);
    } else {
      DoubtsKeepOrder(s, s, phases, Advance(s, phases, step));
    }
  }

  lemma {:induction false} StepKeepsOrder(s: State, phases: seq<Phase>, step: Step)
    requires InOrder(s, phases) && Allowed(s, phases, step)
    ensures InOrder(Apply(s, step), Advance(s, phases, step))
  {
    match step
    case ClaimTask(_, _) => ClaimInOrder(s, phases, step);
    case AuthorizeDispatch(_, _, _, _, _, _) => AuthorizeInOrder(s, phases, step);
    case SettlePermit(_, _, _) => SettleInOrder(s, phases, step);
    case Retry(_, _, _, _, _, _, _) => ReportInOrder(s, phases, step);
    case StopConnectionTest(_, _, _, _, _) => ReportInOrder(s, phases, step);
    case _ =>
      StepOnlyDoubts(s, step);
      DoubtsKeepOrder(s, Apply(s, step), phases, Advance(s, phases, step));
  }

  /** An executor in order never asks for what its caller should have prevented. */
  lemma {:induction false} AllowedIsInPlace(s: State, phases: seq<Phase>, step: Step)
    requires InOrder(s, phases) && Allowed(s, phases, step)
    ensures InPlace(s, step)
  {
    match step
    case Wait(l, _, _, _) => if Issued(s, l) { assert Fits(s.attempts[l.attempt], phases[l.attempt]); }
    case StopConnectionTest(l, _, _, _, _) => if Issued(s, l) { assert Fits(s.attempts[l.attempt], phases[l.attempt]); }
    case _ =>
  }

  /** In every run whose executors keep their order, every state is kept. */
  lemma {:induction false} OrderedRunsAreKept(settings: SettingsRow, steps: seq<Step>)
    requires OrderedRun(Initial(settings), steps)
    ensures var r := Run(Initial(settings), steps); Kept(r) && EpochsBound(r) && InOrder(r,
      Phases(Initial(settings), steps))
    decreases |steps|
  {
    if steps != [] {
      var n := |steps| - 1;
      var m, phases := Run(Initial(settings), steps[..n]), Phases(Initial(settings), steps[..n]);
      OrderedRunsAreKept(settings, steps[..n]);
      StepKeepsOrder(m, phases, steps[n]);
      AllowedIsInPlace(m, phases, steps[n]);
      StepKeepsKept(m, steps[n]);
      StepKeepsEpochs(m, steps[n]);
    }
  }
}
