/** A request is never repeated while its outcome is unknown, unless the user accepted the risk. */
module Requests {
  import opened Wrappers
  import opened Rows
  import opened Queue
  import opened Executor
  import opened Control
  import opened Deletion
  import opened Steps
  import opened Safety
  import opened Runs
  import opened Workers

  /** The user accepted, knowing the duplicate charge it risks, to send the task's request again. */
  ghost predicate RiskAccepted(s: State, step: Step, t: nat) {
    && step.Resolve? && step.decision.RetryAcceptRisk? && step.riskConfirmed
    && step.attempt < |s.attempts| && s.attempts[step.attempt].task == t < |s.tasks|
    && s.attempts[step.attempt].job < |s.jobs|
    && ResolveAttempt(s, step.attempt, step.decision, step.budget, step.riskConfirmed).Success?
  }

  /** Sent, and not known to be answered or never executed. */
  ghost predicate Open(a: AttemptRow) {
    Holds(a, PermitState.Reserved) || Holds(a, PermitState.Unknown)
  }

  /** The open request of a task that nobody can claim. */
  ghost predicate Held(s: State, t: nat, a: nat) {
    && t < |s.tasks| && a < |s.attempts| && s.attempts[a].task == t && s.attempts[a].fence == s.tasks[t].fence
    && Open(s.attempts[a]) && !s.tasks[t].status.Pending?
  }

  /** Held on, or its outcome has become known. */
  ghost predicate HeldOrKnown(s: State, r: State, t: nat, a: nat) {
    a < |r.attempts| && (Open(r.attempts[a]) ==> Held(r, t, a))
  }

  /** A step that leaves the task's row and the attempt's permit to a held request. */
  ghost predicate LeavesHeld(s: State, r: State, t: nat, a: nat) {
    && t < |s.tasks| && a < |s.attempts| && t < |r.tasks| && a < |r.attempts|
    && r.attempts[a].task == s.attempts[a].task && r.attempts[a].fence == s.attempts[a].fence
    && r.tasks[t].fence == s.tasks[t].fence
    && (Open(r.attempts[a]) ==> !r.tasks[t].status.Pending?)
  }

  lemma {:induction false} LeaseStepHolds(s: State, step: Step, t: nat, a: nat)
    requires Linked(s) && Held(s, t, a) && (step.RenewLease? || step.FinishTask? || step.AuthorizeDispatch?)
    ensures LeavesHeld(s, Apply(s, step), t, a)
  {}

  /** The lease of a task's newest fence is that of its held request. */
  lemma {:induction false} HeldIsCurrent(s: State, t: nat, a: nat, l: Lease)
    requires Linked(s) && Held(s, t, a) && Issued(s, l) && l.task == t && s.tasks[t].fence == l.fence
    ensures l.attempt == a
  {}

  lemma {:induction false} FailureHolds(s: State, l: Lease, code: string, t: nat, a: nat)
    requires Linked(s) && Held(s, t, a) && Issued(s, l)
    ensures LeavesHeld(s, FailExecution(s, l, code), t, a)
  {
    if l.task == t && s.tasks[t].fence == l.fence { HeldIsCurrent(s, t, a, l); }
  }

  lemma {:induction false} UnsentIsOlder(s: State, t: nat, a: nat, l: Lease)
    requires Linked(s) && Held(s, t, a) && Issued(s, l) && s.attempts[l.attempt].permit.None?
    ensures l.task != t || s.tasks[t].fence != l.fence
  {}

  lemma {:induction false} WaitHolds(s: State, phases: seq<Phase>, step: Step, t: nat, a: nat)
    requires Linked(s) && InOrder(s, phases) && step.Wait? && Allowed(s, phases, step) && Held(s, t, a)
    ensures LeavesHeld(s, Apply(s, step), t, a)
  {
    if Issued(s, step.lease) {
      assert Fits(s.attempts[step.lease.attempt], phases[step.lease.attempt]);
      UnsentIsOlder(s, t, a, step.lease);
    }
  }

  lemma {:induction false} StopHolds(s: State, step: Step, t: nat, a: nat)
    requires Linked(s) && step.StopConnectionTest? && Held(s, t, a)
    ensures LeavesHeld(s, Apply(s, step), t, a)
  {}

  lemma {:induction false} ReportHolds(s: State, phases: seq<Phase>, l: Lease, outcome: Outcome, code: string,
      now: nat, delay: nat,
      repaired: Option<string>, finalized: Summary, t: nat, a: nat)
    requires Linked(s) && InOrder(s, phases) && Held(s, t, a) && Issued(s, l)
    requires MayReport(PhaseOf(phases, l.attempt), outcome, code)
    ensures LeavesHeld(s, Commit(s, RetryOrStop(s, l, outcome, code, now, delay, repaired, finalized)), t, a)
  {
    assert Fits(s.attempts[l.attempt], phases[l.attempt]);
    RetryRequeues(s, l, outcome, code, now, delay, repaired, finalized);
    RetryRewrites(s, l, outcome, code, now, delay, repaired, finalized);
    RetryEdits(s, l, outcome, code, now, delay, repaired, finalized);
    if Requeues(s, l, outcome, code) && l.task == t {
      HeldIsCurrent(s, t, a, l);
      if !outcome.ExecutedInvalid? { ReportCloses(s, l, outcome, code, now, delay, repaired, finalized); }
    }
  }

  /** A report that puts the task back to pending leaves no open request behind, except an answer's. */
  lemma {:induction false} ReportCloses(s: State, l: Lease, outcome: Outcome, code: string, now: nat, delay: nat,
      repaired: Option<string>, finalized: Summary)
    requires Issued(s, l) && (outcome.NotSent? || outcome.NotExecuted?) && Lands(s, l, outcome)
    ensures !Open(Commit(s, RetryOrStop(s, l, outcome, code, now, delay, repaired, finalized)).attempts[l.attempt])
  {}

  lemma {:induction false} PermitStepHolds(s: State, step: Step, t: nat, a: nat)
    requires Held(s, t, a) && (step.SettlePermit? || step.Checkpoint?)
    ensures LeavesHeld(s, Apply(s, step), t, a)
  {}

  lemma {:induction false} ClaimHolds(s: State, scene: Scene, seconds: nat, t: nat, a: nat)
    requires Held(s, t, a)
    ensures LeavesHeld(s, Apply(s, ClaimTask(scene, seconds)), t, a)
  {}

  lemma {:induction false} CommandHolds(s: State, step: Step, t: nat, a: nat)
    requires Held(s, t, a)
    requires step.Command? || step.Dispatch? || step.ReplaceSource? || step.ContinueDraft? || step.Enqueue?
      || step.AddTask? || step.DeleteDocument?
    ensures LeavesHeld(s, Apply(s, step), t, a)
  {}

  lemma {:induction false} ResolveHolds(s: State, step: Step, t: nat, a: nat)
    requires Linked(s) && Held(s, t, a) && step.Resolve? && !RiskAccepted(s, step, t)
    ensures LeavesHeld(s, Apply(s, step), t, a)
  {}

  lemma {:induction false} CleanupHolds(s: State, l: Lease, now: nat, t: nat, a: nat)
    requires Held(s, t, a) && Issued(s, l)
    ensures LeavesHeld(s, Commit(s, CleanupDocument(s, l, now)), t, a)
  {}

  lemma {:induction false} StillHeld(s: State, r: State, t: nat, a: nat)
    requires Held(s, t, a) && LeavesHeld(s, r, t, a)
    ensures HeldOrKnown(s, r, t, a)
  {}

  lemma {:induction false} RecoverTaskHolds(s: State, u: nat, t: nat, a: nat)
    requires Linked(s) && Held(s, t, a) && u < |s.tasks| && s.tasks[u].status.Leased?
    ensures Held(RecoverTask(s, u), t, a) && Linked(RecoverTask(s, u))
  {
    RecoverTaskIsSteady(s, u);
    SteadyKeepsLinks(s, RecoverTask(s, u));
    RecoverTaskRows(s, u);
    if u == t { assert FindAttempt(s.attempts, t, s.tasks[t].fence) == Some(a); }
  }

  lemma {:induction false} RecoverHolds(s: State, now: nat, order: seq<nat>, t: nat, a: nat)
    requires Linked(s) && Held(s, t, a)
    ensures Held(RecoverAll(s, now, order), t, a)
    decreases |order|
  {
    if order != [] {
      if Expired(s, order[0], now) { RecoverTaskHolds(s, order[0], t, a); }
      RecoverHolds(if Expired(s, order[0], now) then RecoverTask(s, order[0]) else s, now, order[1..], t, a);
    }
  }

  lemma {:induction false} UncertainHolds(s: State, n: nat, t: nat, a: nat)
    requires Held(s, t, a) && n <= |s.attempts|
    ensures Held(UncertainInflight(s, n), t, a)
  {
    if n > 0 { UncertainHolds(s, n - 1, t, a); }
  }

  /** In a run in order, a held request is held on until its outcome is known, or the user accepts the risk. */
  lemma {:induction false} StepHolds(s: State, phases: seq<Phase>, step: Step, t: nat, a: nat)
    requires Linked(s) && InOrder(s, phases) && Allowed(s, phases, step) && Held(s, t, a) && !RiskAccepted(s, step, t)
    ensures HeldOrKnown(s, Apply(s, step), t, a)
  {
    var r := Apply(s, step);
    if step.Recover? { RecoverHolds(s, step.now, step.order, t, a); }
    else if step.Maintenance? {
      UncertainHolds(s.(settings := s.settings.(maintenance := step.enabled,
        dispatchDisabled := step.dispatchDisabled)), |s.attempts|, t, a);
    } else {
      if step.FailTask? { if Issued(s, step.lease) { FailureHolds(s, step.lease, step.code, t, a); } }
      else if step.Retry? {
        if Issued(s, step.lease) {
          ReportHolds(s, phases, step.lease, step.outcome, step.code, step.now, step.delay, step.repaired,
            step.finalized, t, a);
        }
      }
      else if step.Cleanup? { if Issued(s, step.lease) { CleanupHolds(s, step.lease, step.now, t, a); } }
      else { OtherStepHolds(s, phases, step, t, a); }
      StillHeld(s, r, t, a);
    }
  }

  lemma {:induction false} OtherStepHolds(s: State, phases: seq<Phase>, step: Step, t: nat, a: nat)
    requires Linked(s) && InOrder(s, phases) && Allowed(s, phases, step) && Held(s, t, a) && !RiskAccepted(s, step, t)
    requires !step.Recover? && !step.Maintenance? && !step.FailTask? && !step.Retry? && !step.Cleanup?
    ensures LeavesHeld(s, Apply(s, step), t, a)
  {
    match step
    case Wait(_, _, _, _) => WaitHolds(s, phases, step, t, a);
    case StopConnectionTest(_, _, _, _, _) => StopHolds(s, step, t, a);
    case ClaimTask(scene, seconds) => ClaimHolds(s, scene, seconds, t, a);
    case Resolve(_, _, _, _) => ResolveHolds(s, step, t, a);
    case SettlePermit(_, _, _) => PermitStepHolds(s, step, t, a);
    case Checkpoint(_, _) => PermitStepHolds(s, step, t, a);
    case _ =>
      if step.RenewLease? || step.FinishTask? || step.AuthorizeDispatch? { LeaseStepHolds(s, step, t, a); }
      else { CommandHolds(s, step, t, a); }
  }

  lemma {:induction false} AuthorizeOpens(s: State, step: Step, a: nat)
    requires step.AuthorizeDispatch? || step.SettlePermit?
    ensures |Apply(s, step).attempts| == |s.attempts|
    ensures a < |s.attempts| && Open(Apply(s, step).attempts[a]) ==>
      Open(s.attempts[a]) || Holds(Apply(s, step).attempts[a], PermitState.Reserved)
  {}

  /** Requests are opened by the authorization alone, and in flight. */
  lemma {:induction false} OpensReserved(s: State, phases: seq<Phase>, step: Step, a: nat)
    requires InOrder(s, phases) && Allowed(s, phases, step)
    requires a < |Apply(s, step).attempts| && Open(Apply(s, step).attempts[a])
    requires !(a < |s.attempts| && Open(s.attempts[a]))
    ensures Holds(Apply(s, step).attempts[a], PermitState.Reserved)
  {
    match step
    case ClaimTask(_, _) =>
    case AuthorizeDispatch(_, _, _, _, _, _) => AuthorizeOpens(s, step, a);
    case SettlePermit(_, _, _) => AuthorizeOpens(s, step, a);
    case Retry(_, _, _, _, _, _, _) => ReportOpensNothing(s, phases, step, a);
    case StopConnectionTest(_, _, _, _, _) => StopOpensNothing(s, phases, step, a);
    case _ => OthersOpenNothing(s, step, a);
  }

  lemma {:induction false} OthersOpenNothing(s: State, step: Step, a: nat)
    requires !Accounts(step)
    ensures |Apply(s, step).attempts| == |s.attempts|
    ensures a < |s.attempts| && Open(Apply(s, step).attempts[a]) ==> Open(s.attempts[a])
  {
    StepOnlyDoubts(s, step);
  }

  lemma {:induction false} ReportOpensNothing(s: State, phases: seq<Phase>, step: Step, a: nat)
    requires InOrder(s, phases) && Allowed(s, phases, step) && step.Retry?
    ensures |Apply(s, step).attempts| == |s.attempts|
    ensures a < |s.attempts| && Open(Apply(s, step).attempts[a]) ==> Open(s.attempts[a])
  {
    if Issued(s, step.lease) {
      assert Fits(s.attempts[step.lease.attempt], phases[step.lease.attempt]);
      RetryRewrites(s, step.lease, step.outcome, step.code, step.now, step.delay, step.repaired, step.finalized);
      if !Open(s.attempts[step.lease.attempt]) {
        RetryPermit(s, step.lease, step.outcome, step.code, step.now, step.delay, step.repaired, step.finalized);
      }
    }
  }

  lemma {:induction false} RetryPermit(s: State, l: Lease, outcome: Outcome, code: string, now: nat, delay: nat,
      repaired: Option<string>, finalized: Summary)
    requires Issued(s, l) && !Open(s.attempts[l.attempt]) && !outcome.Unknown?
    ensures var r := Commit(s, RetryOrStop(s, l, outcome, code, now, delay, repaired, finalized));
      |r.attempts| == |s.attempts| && r.attempts[l.attempt].permit == s.attempts[l.attempt].permit
  {}

  lemma {:induction false} StopOpensNothing(s: State, phases: seq<Phase>, step: Step, a: nat)
    requires InOrder(s, phases) && Allowed(s, phases, step) && step.StopConnectionTest?
    ensures |Apply(s, step).attempts| == |s.attempts|
    ensures a < |s.attempts| && Open(Apply(s, step).attempts[a]) ==> Open(s.attempts[a])
  {
    if Issued(s, step.lease) { assert Fits(s.attempts[step.lease.attempt], phases[step.lease.attempt]); }
  }

  /** Among the first `n` steps the user accepted the risk of task `t` while attempt `a` was of unknown outcome. */
  ghost predicate AcceptedBefore(s: State, steps: seq<Step>, n: nat, t: nat, a: nat)
    requires n <= |steps|
  {
    exists k :: 0 <= k < n && AcceptedAt(Run(s, steps[..k]), steps[k], t, a)
  }

  ghost predicate AcceptedAt(s: State, step: Step, t: nat, a: nat) {
    RiskAccepted(s, step, t) && a < |s.attempts| && s.attempts[a].task == t && Holds(s.attempts[a], PermitState.Unknown)
  }

  /** Every open request is held, or was accepted for repetition. */
  ghost predicate OpenIsHeld(s: State, steps: seq<Step>, n: nat)
    requires n <= |steps|
  {
    var m := Run(s, steps[..n]);
    forall a :: 0 <= a < |m.attempts| && Open(m.attempts[a]) ==> HeldOrAccepted(s, steps, n, m, a)
  }

  ghost predicate HeldOrAccepted(s: State, steps: seq<Step>, n: nat, m: State, a: nat)
    requires n <= |steps| && a < |m.attempts|
  {
    Held(m, m.attempts[a].task, a) || AcceptedBefore(s, steps, n, m.attempts[a].task, a)
  }

  /** The user can accept the risk only of a request whose outcome is unknown. */
  lemma {:induction false} AcceptsUnknown(s: State, step: Step, t: nat, a: nat)
    requires Kept(s) && RiskAccepted(s, step, t) && Held(s, t, a)
    ensures AcceptedAt(s, step, t, a)
  {
    assert Holds(s.attempts[a], PermitState.Reserved) ==> FlightKept(s, a);
  }

  lemma {:induction false} NextIsHeld(m: State, phases: seq<Phase>, step: Step, a: nat)
    requires Kept(m) && InOrder(m, phases) && Allowed(m, phases, step) && Kept(Apply(m, step))
    requires a < |Apply(m, step).attempts| && Open(Apply(m, step).attempts[a])
    requires a < |m.attempts| && Open(m.attempts[a]) ==>
      Held(m, m.attempts[a].task, a) && !RiskAccepted(m, step, m.attempts[a].task)
    ensures Held(Apply(m, step), Apply(m, step).attempts[a].task, a)
  {
    var r := Apply(m, step);
    if a < |m.attempts| && Open(m.attempts[a]) {
      StepHolds(m, phases, step, m.attempts[a].task, a);
    } else {
      OpensReserved(m, phases, step, a);
      assert FlightKept(r, a);
    }
  }

  lemma {:induction false} StepHeldOrAccepted(settings: SettingsRow, steps: seq<Step>, n: nat, a: nat)
    requires n < |steps| && OrderedRun(Initial(settings), steps) && OpenIsHeld(Initial(settings), steps, n)
    requires var r := Run(Initial(settings), steps[..n + 1]); a < |r.attempts| && Open(r.attempts[a])
    ensures HeldOrAccepted(Initial(settings), steps, n + 1, Run(Initial(settings), steps[..n + 1]), a)
  {
    var s := Initial(settings);
    var m, r, phases := Run(s, steps[..n]), Run(s, steps[..n + 1]), Phases(s, steps[..n]);
    OneMoreStep(s, steps, n + 1);
    OrderedPrefix(s, steps, n);
    OrderedPrefix(s, steps, n + 1);
    OrderedRunsAreKept(settings, steps[..n]);
    OrderedRunsAreKept(settings, steps[..n + 1]);
    StepIsSteady(m, steps[n]);
    if a < |m.attempts| && Open(m.attempts[a]) {
      assert SteadyAttempt(m.attempts[a], r.attempts[a]) && HeldOrAccepted(s, steps, n, m, a);
      var t := m.attempts[a].task;
      if AcceptedBefore(s, steps, n, t, a) {
        assert AcceptedBefore(s, steps, n + 1, t, a);
      } else if RiskAccepted(m, steps[n], t) {
        AcceptsUnknown(m, steps[n], t, a);
        assert AcceptedBefore(s, steps, n + 1, t, a);
      } else {
        NextIsHeld(m, phases, steps[n], a);
      }
    } else {
      NextIsHeld(m, phases, steps[n], a);
    }
  }

  lemma {:induction false} OpenStaysHeld(settings: SettingsRow, steps: seq<Step>, n: nat)
    requires n <= |steps| && OrderedRun(Initial(settings), steps)
    ensures OpenIsHeld(Initial(settings), steps, n)
  {
    if n > 0 {
      OpenStaysHeld(settings, steps, n - 1);
      var r := Run(Initial(settings), steps[..n]);
      forall a | 0 <= a < |r.attempts| && Open(r.attempts[a])
        ensures HeldOrAccepted(Initial(settings), steps, n, r, a)
      {
        StepHeldOrAccepted(settings, steps, n - 1, a);
      }
    }
  }

  lemma {:induction false} HeldIsNotAuthorized(s: State, step: Step, a: nat)
    requires Linked(s) && Authorizes(s, step)
    ensures !Held(s, step.lease.task, a)
  {}

  /** While the outcome of a task's request is unknown, or the request in flight, no further permit of
      the task is issued, unless the user accepted the risk while that request was of unknown outcome. */
  lemma {:induction false} RepeatsNeedRisk(settings: SettingsRow, steps: seq<Step>, n: nat, a: nat)
    requires n < |steps| && OrderedRun(Initial(settings), steps)
    requires var m := Run(Initial(settings), steps[..n]);
      && Authorizes(m, steps[n]) && a < |m.attempts| && m.attempts[a].task == steps[n].lease.task && Open(m.attempts[a])
    ensures AcceptedBefore(Initial(settings), steps, n, steps[n].lease.task, a)
  {
    var m := Run(Initial(settings), steps[..n]);
    OpenStaysHeld(settings, steps, n);
    assert HeldOrAccepted(Initial(settings), steps, n, m, a);
    OrderedPrefix(Initial(settings), steps, n);
    OrderedRunsAreKept(settings, steps[..n]);
    HeldIsNotAuthorized(m, steps[n], a);
  }

  lemma {:induction false} LeaseStepsLeaveUnknown(s: State, step: Step, t: nat)
    requires t < |s.tasks| && s.tasks[t].status.OutcomeUnknown?
    requires step.RenewLease? || step.FinishTask? || step.AuthorizeDispatch? || step.Wait?
    ensures |Apply(s, step).tasks| == |s.tasks| && Apply(s, step).tasks[t] == s.tasks[t]
  {}

  lemma {:induction false} FailureLeavesUnknown(s: State, step: Step, t: nat)
    requires t < |s.tasks| && s.tasks[t].status.OutcomeUnknown? && (step.FailTask? || step.StopConnectionTest?)
    ensures |Apply(s, step).tasks| == |s.tasks| && Apply(s, step).tasks[t] == s.tasks[t]
  {}

  lemma {:induction false} ClaimLeavesUnknown(s: State, scene: Scene, seconds: nat, t: nat)
    requires t < |s.tasks| && s.tasks[t].status.OutcomeUnknown?
    ensures |Apply(s, ClaimTask(scene, seconds)).tasks| == |s.tasks|
    ensures Apply(s, ClaimTask(scene, seconds)).tasks[t] == s.tasks[t]
  {}

  lemma {:induction false} ResolveRevives(s: State, step: Step, t: nat)
    requires Linked(s) && step.Resolve? && t < |s.tasks| && s.tasks[t].status.OutcomeUnknown?
    requires t < |Apply(s, step).tasks| && Apply(s, step).tasks[t].status.Pending?
    ensures RiskAccepted(s, step, t)
  {}

  lemma {:induction false} CleanupLeavesUnleased(s: State, l: Lease, now: nat, t: nat)
    requires Issued(s, l) && t < |s.tasks| && s.tasks[t].status.OutcomeUnknown?
    ensures var r := Commit(s, CleanupDocument(s, l, now)); |r.tasks| == |s.tasks| && !r.tasks[t].status.Pending?
  {}

  lemma {:induction false} RecoverLeavesUnleased(s: State, now: nat, order: seq<nat>, t: nat)
    requires t < |s.tasks| && !s.tasks[t].status.Leased?
    ensures |RecoverAll(s, now, order).tasks| == |s.tasks| && RecoverAll(s, now, order).tasks[t] == s.tasks[t]
    decreases |order|
  {
    if order != [] {
      RecoverLeavesUnleased(if Expired(s, order[0], now) then RecoverTask(s, order[0]) else s, now, order[1..], t);
    }
  }

  lemma {:induction false} UncertainLeavesUnknown(s: State, n: nat, t: nat)
    requires t < |s.tasks| && s.tasks[t].status.OutcomeUnknown? && n <= |s.attempts|
    ensures UncertainInflight(s, n).tasks[t].status.OutcomeUnknown?
  {
    if n > 0 { UncertainLeavesUnknown(s, n - 1, t); }
  }

  /** The only report that puts a task of unknown outcome back is that of an answer already paid for. */
  lemma {:induction false} ReportRevives(s: State, phases: seq<Phase>, step: Step, t: nat)
    requires Kept(s) && InOrder(s, phases) && step.Retry? && Allowed(s, phases, step)
    requires t < |s.tasks| && s.tasks[t].status.OutcomeUnknown?
    requires t < |Apply(s, step).tasks| && Apply(s, step).tasks[t].status.Pending?
    ensures AnswerIsPaid(s, step, t)
  {
    var l := step.lease;
    RetryRequeues(s, l, step.outcome, step.code, step.now, step.delay, step.repaired, step.finalized);
    assert Fits(s.attempts[l.attempt], phases[l.attempt]);
  }

  /** An invalid answer of the task's newest attempt, with its charge settled. */
  ghost predicate AnswerIsPaid(s: State, step: Step, t: nat) {
    && step.Retry? && step.outcome.ExecutedInvalid? && Issued(s, step.lease) && step.lease.task == t
    && s.tasks[t].fence == step.lease.fence && Holds(s.attempts[step.lease.attempt], PermitState.Settled)
  }

  /** A task of unknown outcome becomes pending only by a risk-accepted retry, or by the report of an
      invalid answer that was settled after all. */
  lemma {:induction false} OnlyRetriesRevive(s: State, phases: seq<Phase>, step: Step, t: nat)
    requires Kept(s) && InOrder(s, phases) && Allowed(s, phases, step)
    requires t < |s.tasks| && t < |Apply(s, step).tasks|
    requires s.tasks[t].status.OutcomeUnknown? && Apply(s, step).tasks[t].status.Pending?
    ensures RiskAccepted(s, step, t) || AnswerIsPaid(s, step, t)
  {
    match step
    case Retry(_, _, _, _, _, _, _) => ReportRevives(s, phases, step, t);
    case Recover(now, order) => if !s.settings.maintenance { RecoverLeavesUnleased(s, now, order, t); }
    case Maintenance(enabled, disabled) =>
      if enabled {
        UncertainLeavesUnknown(s.(settings := s.settings.(maintenance := enabled, dispatchDisabled := disabled)),
          |s.attempts|, t);
      }
    case ClaimTask(scene, seconds) => ClaimLeavesUnknown(s, scene, seconds, t);
    case Cleanup(l, now) => if Issued(s, l) { CleanupLeavesUnleased(s, l, now, t); }
    case Resolve(_, _, _, _) => ResolveRevives(s, step, t);
    case _ =>
      if step.FailTask? || step.StopConnectionTest? { FailureLeavesUnknown(s, step, t); }
      else if step.RenewLease? || step.FinishTask? || step.AuthorizeDispatch? || step.Wait? {
        LeaseStepsLeaveUnknown(s, step, t);
      }
  }
}
