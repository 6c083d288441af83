/** What holds after any sequence of transactions. */
module Runs {
  import opened Wrappers
  import opened Rows
  import opened Queue
  import opened Executor
  import opened Control
  import opened Deletion
  import opened Steps
  import opened Safety

  ghost predicate SoundRun(s: State, steps: seq<Step>)
    decreases |steps|
  {
    steps == [] || (SoundRun(s, steps[..|steps| - 1]) && Sound(Run(s, steps[..|steps| - 1]), steps[|steps| - 1]))
  }

  ghost predicate SafeThroughout(s: State, steps: seq<Step>)
    decreases |steps|
  {
    Safe(Run(s, steps)) && (steps == [] || SafeThroughout(s, steps[..|steps| - 1]))
  }

  /** A run keeps every state safe exactly when each of its steps is sound where it happens. */
  lemma {:induction false} RunsAreSafe(s: State, steps: seq<Step>)
    requires Safe(s)
    ensures SafeThroughout(s, steps) <==> SoundRun(s, steps)
    decreases |steps|
  {
    if steps != [] {
      var n := |steps| - 1;
      RunsAreSafe(s, steps[..n]);
      if SoundRun(s, steps[..n]) {
        assert Safe(Run(s, steps[..n])) by { assert SafeThroughout(s, steps[..n]); }
        StepKeepsSafe(Run(s, steps[..n]), steps[n]);
      }
    }
  }

  /** Rows keep their identity, fences and epochs never go back, a tombstone stays, a lease comes
      only with a new fence, and permits only move forward. */
  ghost predicate Steady(s: State, r: State) {
    && |s.jobs| <= |r.jobs| && |s.tasks| <= |r.tasks| && |s.attempts| <= |r.attempts| && s.deleted <= r.deleted
    && (forall j :: 0 <= j < |s.jobs| ==> SteadyJob(s.jobs[j], r.jobs[j]))
    && (forall t :: 0 <= t < |s.tasks| ==> SteadyTask(s.tasks[t], r.tasks[t]))
    && (forall a :: 0 <= a < |s.attempts| ==> SteadyAttempt(s.attempts[a], r.attempts[a]))
  }

  ghost predicate SteadyJob(j: JobRow, k: JobRow) {
    j.epoch <= k.epoch && j.document == k.document
  }

  ghost predicate SteadyTask(t: TaskRow, u: TaskRow) {
    t.job == u.job && t.fence <= u.fence && (u.status.Leased? && u.fence == t.fence ==> t.status.Leased?)
  }

  ghost predicate SteadyAttempt(a: AttemptRow, b: AttemptRow) {
    && a.task == b.task && a.job == b.job && a.fence == b.fence && a.epoch == b.epoch && a.createdAt == b.createdAt
    && (a.permit.Some? ==> b.permit.Some? && Moves(a.permit.value, b.permit.value))
  }

  lemma {:induction false} SteadyTrans(s: State, m: State, r: State)
    requires Steady(s, m) && Steady(m, r)
    ensures Steady(s, r)
  {
    forall j | 0 <= j < |s.jobs| ensures SteadyJob(s.jobs[j], r.jobs[j]) {
      assert SteadyJob(s.jobs[j], m.jobs[j]) && SteadyJob(m.jobs[j], r.jobs[j]);
    }
    forall t | 0 <= t < |s.tasks| ensures SteadyTask(s.tasks[t], r.tasks[t]) {
      assert SteadyTask(s.tasks[t], m.tasks[t]) && SteadyTask(m.tasks[t], r.tasks[t]);
    }
    forall a | 0 <= a < |s.attempts| ensures SteadyAttempt(s.attempts[a], r.attempts[a]) {
      assert SteadyAttempt(s.attempts[a], m.attempts[a]) && SteadyAttempt(m.attempts[a], r.attempts[a]);
    }
  }

  /** Only job `j`, task `t` and attempt `a` are rewritten. */
  ghost predicate Rewrites(s: State, r: State, j: nat, t: nat, a: nat) {
    && j < |s.jobs| && t < |s.tasks| && a < |s.attempts|
    && |r.jobs| == |s.jobs| && |r.tasks| == |s.tasks| && |r.attempts| == |s.attempts| && r.deleted == s.deleted
    && r.jobs == s.jobs[j := r.jobs[j]] && SteadyJob(s.jobs[j], r.jobs[j])
    && r.tasks == s.tasks[t := r.tasks[t]] && SteadyTask(s.tasks[t], r.tasks[t])
    && r.attempts == s.attempts[a := r.attempts[a]] && SteadyAttempt(s.attempts[a], r.attempts[a])
  }

  lemma {:induction false} RewriteIsSteady(s: State, r: State, j: nat, t: nat, a: nat)
    requires Rewrites(s, r, j, t, a)
    ensures Steady(s, r)
  {}

  lemma {:induction false} FailureRewrites(s: State, step: Step)
    requires step.FailTask? && Issued(s, step.lease)
    ensures Rewrites(s, Apply(s, step), step.lease.job, step.lease.task, step.lease.attempt)
  {}

  lemma {:induction false} FinishRewrites(s: State, l: Lease, now: nat, memo: set<Lease>, status: JobStatus)
    requires Issued(s, l)
    ensures Rewrites(s, Commit(s, Queue.Finish(s, l, now, memo, status)), l.job, l.task, l.attempt)
  {}

  lemma {:induction false} LeaseStepRewrites(s: State, step: Step)
    requires (step.RenewLease? || step.Wait?) && Issued(s, step.lease)
    ensures Rewrites(s, Apply(s, step), step.lease.job, step.lease.task, step.lease.attempt)
  {}

  lemma {:induction false} AuthorizeRewrites(s: State, step: Step)
    requires step.AuthorizeDispatch? && Issued(s, step.lease)
    ensures Rewrites(s, Apply(s, step), step.lease.job, step.lease.task, step.lease.attempt)
  {}

  lemma {:induction false} StopTestRewrites(s: State, step: Step)
    requires step.StopConnectionTest? && Issued(s, step.lease)
    ensures Rewrites(s, Apply(s, step), step.lease.job, step.lease.task, step.lease.attempt)
  {}

  lemma {:induction false} RetryRewrites(s: State, l: Lease, outcome: Outcome, code: string, now: nat, delay: nat,
      repaired: Option<string>, finalized: Summary)
    requires Issued(s, l)
    ensures Rewrites(s, Commit(s, RetryOrStop(s, l, outcome, code, now, delay, repaired, finalized)), l.job, l.task,
      l.attempt)
  {
    var effective := EffectiveOutcome(s, l.attempt, outcome);
    Classified(s, l.attempt, outcome);
    RetryTaskRow(s.tasks[l.task], effective, code, now, delay, repaired);
  }

  lemma {:induction false} MarkIsSteady(s: State, step: Step)
    requires step.MarkUncertain? || step.Release?
    ensures Steady(s, Apply(s, step))
  {}

  lemma {:induction false} PermitStepIsSteady(s: State, step: Step)
    requires step.SettlePermit? || step.Checkpoint?
    ensures Steady(s, Apply(s, step))
  {}

  lemma {:induction false} CommandIsSteady(s: State, step: Step)
    requires step.Command? || step.Dispatch? || step.ReplaceSource? || step.ContinueDraft?
    ensures Steady(s, Apply(s, step))
  {}

  lemma {:induction false} ResolveIsSteady(s: State, step: Step)
    requires step.Resolve?
    ensures Steady(s, Apply(s, step))
  {}

  lemma {:induction false} NewRowsAreSteady(s: State, step: Step)
    requires step.Enqueue? || step.AddTask? || step.ClaimTask? || step.DeleteDocument?
    ensures Steady(s, Apply(s, step))
  {}

  lemma {:induction false} RecoverTaskIsSteady(s: State, t: nat)
    requires t < |s.tasks| && s.tasks[t].job < |s.jobs|
    ensures Steady(s, RecoverTask(s, t))
  {}

  lemma {:induction false} RecoverIsSteady(s: State, now: nat, order: seq<nat>)
    ensures Steady(s, RecoverAll(s, now, order))
    decreases |order|
  {
    if order != [] {
      var m := if Expired(s, order[0], now) then RecoverTask(s, order[0]) else s;
      if Expired(s, order[0], now) { RecoverTaskIsSteady(s, order[0]); }
      RecoverIsSteady(m, now, order[1..]);
      SteadyTrans(s, m, RecoverAll(m, now, order[1..]));
    }
  }

  lemma {:induction false} UncertainOneIsSteady(s: State, a: nat)
    requires a < |s.attempts|
    ensures Steady(s, UncertainOne(s, a))
  {}

  lemma {:induction false} UncertainIsSteady(s: State, n: nat)
    requires n <= |s.attempts|
    ensures Steady(s, UncertainInflight(s, n))
  {
    if n > 0 {
      UncertainIsSteady(s, n - 1);
      UncertainOneIsSteady(UncertainInflight(s, n - 1), n - 1);
      SteadyTrans(s, UncertainInflight(s, n - 1), UncertainInflight(s, n));
    }
  }

  lemma {:induction false} EraseIsSteady(s: State, d: nat, keep: nat)
    ensures Steady(s, Erase(s, d, keep))
  {
    forall t | 0 <= t < |s.tasks| ensures SteadyTask(s.tasks[t], Erase(s, d, keep).tasks[t]) {
      ErasedTask(s, t, d, keep);
    }
  }

  lemma {:induction false} CleanupIsSteady(s: State, l: Lease, now: nat)
    requires Issued(s, l)
    ensures Steady(s, Commit(s, CleanupDocument(s, l, now)))
  {
    if CleansUp(s, l, now) {
      var m := Erase(s, s.jobs[l.job].document.value, l.task);
      EraseIsSteady(s, s.jobs[l.job].document.value, l.task);
      FinishIsSteady(m, l, now, {l}, JobStatus.Ended("succeeded"));
      SteadyTrans(s, m, Commit(m, Queue.Finish(m, l, now, {l}, JobStatus.Ended("succeeded"))));
    }
  }

  lemma {:induction false} FinishIsSteady(s: State, l: Lease, now: nat, memo: set<Lease>, status: JobStatus)
    requires Issued(s, l)
    ensures Steady(s, Commit(s, Queue.Finish(s, l, now, memo, status)))
  {
    FinishRewrites(s, l, now, memo, status);
    RewriteIsSteady(s, Commit(s, Queue.Finish(s, l, now, memo, status)), l.job, l.task, l.attempt);
  }

  lemma {:induction false} LeaseStepIsSteady(s: State, step: Step)
    requires step.RenewLease? || step.FinishTask? || step.FailTask? || step.Wait? || step.AuthorizeDispatch?
      || step.StopConnectionTest? || step.Retry?
    ensures Steady(s, Apply(s, step))
  {
    if Issued(s, step.lease) {
      if step.Retry? {
        RetryRewrites(s, step.lease, step.outcome, step.code, step.now, step.delay, step.repaired, step.finalized);
      }
      else if step.AuthorizeDispatch? { AuthorizeRewrites(s, step); }
      else if step.StopConnectionTest? { StopTestRewrites(s, step); }
      else if step.FailTask? { FailureRewrites(s, step); }
      else if step.FinishTask? { FinishRewrites(s, step.lease, step.now, step.memo, step.status); }
      else { LeaseStepRewrites(s, step); }
      RewriteIsSteady(s, Apply(s, step), step.lease.job, step.lease.task, step.lease.attempt);
    }
  }

  /** Every transaction, whoever calls it. */
  lemma {:induction false} StepIsSteady(s: State, step: Step)
    ensures Steady(s, Apply(s, step))
  {
    match step
    case Recover(now, order) => RecoverIsSteady(s, now, order);
    case Maintenance(enabled, disabled) =>
      UncertainIsSteady(s.(settings := s.settings.(maintenance := enabled, dispatchDisabled := disabled)),
        |s.attempts|);
    case Cleanup(l, now) => if Issued(s, l) { CleanupIsSteady(s, l, now); }
    case Resolve(_, _, _, _) => ResolveIsSteady(s, step);
    case _ =>
      if step.MarkUncertain? || step.Release? { MarkIsSteady(s, step); }
      else if step.SettlePermit? || step.Checkpoint? { PermitStepIsSteady(s, step); }
      else if step.Command? || step.Dispatch? || step.ReplaceSource? || step.ContinueDraft? {
        CommandIsSteady(s, step);
      }
      else if step.Enqueue? || step.AddTask? || step.ClaimTask? || step.DeleteDocument? { NewRowsAreSteady(s, step); }
      else { LeaseStepIsSteady(s, step); }
  }

  lemma {:induction false} RunIsSteady(s: State, steps: seq<Step>)
    ensures Steady(s, Run(s, steps))
    decreases |steps|
  {
    if steps != [] {
      var n := |steps| - 1;
      RunIsSteady(s, steps[..n]);
      StepIsSteady(Run(s, steps[..n]), steps[n]);
      SteadyTrans(s, Run(s, steps[..n]), Run(s, steps));
    }
  }

  /** The lease's task left `leased` or was claimed again. */
  ghost predicate Dead(s: State, l: Lease) {
    && Issued(s, l) && l.fence <= s.tasks[l.task].fence
    && !(s.tasks[l.task].status.Leased? && s.tasks[l.task].fence == l.fence)
  }

  /** The lease was taken before its job's latest epoch. */
  ghost predicate Overtaken(s: State, l: Lease) {
    Issued(s, l) && l.epoch < s.jobs[l.job].epoch
  }

  /** A dead lease stays dead: after any transactions whatever, at no time and with no memo of
      earlier checks, does it pass the check, renew or finish. */
  lemma {:induction false} DeadLeaseStaysDead(s: State, steps: seq<Step>, l: Lease, now: nat, memo: set<Lease>,
      allowed: set<JobStatus>, status: JobStatus)
    requires Dead(s, l)
    ensures var r := Run(s, steps);
      && Dead(r, l)
      && CurrentError(r, l, now, memo, allowed) in {"MAINTENANCE", "FENCE_EXPIRED"}
      && !CanRenew(r, l, now)
      && Queue.Finish(r, l, now, memo, status).Failure?
  {
    RunIsSteady(s, steps);
    var r := Run(s, steps);
    assert SteadyTask(s.tasks[l.task], r.tasks[l.task]) && SteadyAttempt(s.attempts[l.attempt], r.attempts[l.attempt]);
  }

  /** So does an overtaken one, whatever its task and job have become. */
  lemma {:induction false} OvertakenStaysRefused(s: State, steps: seq<Step>, l: Lease, now: nat, memo: set<Lease>,
      allowed: set<JobStatus>, status: JobStatus)
    requires Overtaken(s, l)
    ensures var r := Run(s, steps);
      && Overtaken(r, l)
      && CurrentError(r, l, now, memo, allowed) in {"MAINTENANCE", "FENCE_EXPIRED", "CONTROL_CHANGED"}
      && !CanRenew(r, l, now)
      && Queue.Finish(r, l, now, memo, status).Failure?
  {
    RunIsSteady(s, steps);
    var r := Run(s, steps);
    assert SteadyJob(s.jobs[l.job], r.jobs[l.job]) && SteadyAttempt(s.attempts[l.attempt], r.attempts[l.attempt]);
  }

  /** No attempt is ahead of its job. */
  ghost predicate EpochsBound(s: State) {
    forall a :: 0 <= a < |s.attempts| && s.attempts[a].job < |s.jobs| ==>
      s.attempts[a].epoch <= s.jobs[s.attempts[a].job].epoch
  }

  /** The jobs whose running work the accepted command takes away. */
  ghost predicate Overtakes(s: State, step: Step, j: nat)
    requires j < |s.jobs|
  {
    match step
    case Command(k, action) => k == j && !action.Resume? && ControlJob(s, k, action).Success?
    case Resolve(a, decision, budget, risk) =>
      && a < |s.attempts| && s.attempts[a].job == j && s.attempts[a].task < |s.tasks|
      && decision.Stop? && ResolveAttempt(s, a, decision, budget, risk).Success?
    case Maintenance(enabled, _) =>
      enabled && exists a ::
        0 <= a < |s.attempts| && s.attempts[a].job == j && Holds(s.attempts[a], PermitState.Reserved)
    case DeleteDocument(d, now) => s.jobs[j].document == Some(d) && Deletion.DeleteDocument(s, d, now).Success?
    case ReplaceSource(d) =>
      && s.jobs[j].document == Some(d) && Deletion.ReplaceSource(s, d).Success?
      && s.jobs[j].stage !in {"export", "index", "cleanup"} && !Terminal(s.jobs[j].status)
    case ContinueDraft(previous) =>
      && j in previous && Deletion.ContinueDraft(s, previous).Success?
      && (s.jobs[j].status.WaitingConfig? || s.jobs[j].status.WaitingBudget?)
    case _ => false
  }

  lemma {:induction false} CommandBumps(s: State, step: Step, j: nat)
    requires j < |s.jobs| && !step.Maintenance? && Overtakes(s, step, j)
    ensures j < |Apply(s, step).jobs| && s.jobs[j].epoch < Apply(s, step).jobs[j].epoch
  {}

  lemma {:induction false} UncertainBumps(s: State, n: nat, a: nat)
    requires Linked(s) && a < n <= |s.attempts| && Holds(s.attempts[a], PermitState.Reserved)
    ensures var j := s.attempts[a].job; s.jobs[j].epoch < UncertainInflight(s, n).jobs[j].epoch
  {
    var m := UncertainInflight(s, n - 1);
    UncertainRest(s, n - 1);
    if a < n - 1 { UncertainBumps(s, n - 1, a); }
  }

  lemma {:induction false} MaintenanceBumps(s: State, step: Step, j: nat)
    requires Linked(s) && j < |s.jobs| && step.Maintenance? && Overtakes(s, step, j)
    ensures j < |Apply(s, step).jobs| && s.jobs[j].epoch < Apply(s, step).jobs[j].epoch
  {
    var s1 := s.(settings := s.settings.(maintenance := step.enabled, dispatchDisabled := step.dispatchDisabled));
    var a :| 0 <= a < |s.attempts| && s.attempts[a].job == j && Holds(s.attempts[a], PermitState.Reserved);
    UncertainBumps(s1, |s1.attempts|, a);
  }

  lemma {:induction false} ClaimKeepsEpochs(s: State, scene: Scene, seconds: nat)
    requires EpochsBound(s)
    ensures EpochsBound(Apply(s, ClaimTask(scene, seconds)))
  {}

  /** No rows are added. */
  ghost predicate SameRows(s: State, r: State) {
    |r.jobs| == |s.jobs| && |r.tasks| == |s.tasks| && |r.attempts| == |s.attempts|
  }

  lemma {:induction false} LeaseStepAddsNothing(s: State, step: Step)
    requires step.RenewLease? || step.FinishTask? || step.FailTask? || step.Wait? || step.AuthorizeDispatch?
      || step.StopConnectionTest? || step.Cleanup?
    ensures SameRows(s, Apply(s, step))
  {}

  lemma {:induction false} RetryAddsNothing(s: State, l: Lease, outcome: Outcome, code: string, now: nat, delay: nat,
      repaired: Option<string>, finalized: Summary)
    requires Issued(s, l)
    ensures SameRows(s, Commit(s, RetryOrStop(s, l, outcome, code, now, delay, repaired, finalized)))
  {
    RetryRewrites(s, l, outcome, code, now, delay, repaired, finalized);
  }

  lemma {:induction false} CommandAddsNothing(s: State, step: Step)
    requires step.Command? || step.Resolve? || step.Dispatch? || step.ReplaceSource? || step.ContinueDraft?
      || step.Maintenance?
    ensures SameRows(s, Apply(s, step))
  {}

  lemma {:induction false} PermitStepAddsNothing(s: State, step: Step)
    requires step.MarkUncertain? || step.Release? || step.SettlePermit? || step.Checkpoint?
    ensures SameRows(s, Apply(s, step))
  {}

  lemma {:induction false} StepAddsNothing(s: State, step: Step)
    requires !step.Enqueue? && !step.AddTask? && !step.DeleteDocument? && !step.ClaimTask?
    ensures SameRows(s, Apply(s, step))
  {
    match step
    case Recover(now, order) => RecoverKeepsLength(s, now, order);
    case Retry(l, outcome, code, now, delay, repaired, finalized) =>
      if Issued(s, l) { RetryAddsNothing(s, l, outcome, code, now, delay, repaired, finalized); }
    case _ =>
      if step.Command? || step.Resolve? || step.Dispatch? || step.ReplaceSource? || step.ContinueDraft?
          || step.Maintenance? {
        CommandAddsNothing(s, step);
      } else if step.MarkUncertain? || step.Release? || step.SettlePermit? || step.Checkpoint? {
        PermitStepAddsNothing(s, step);
      } else {
        LeaseStepAddsNothing(s, step);
      }
  }

  lemma {:induction false} OnlyClaimsAddAttempts(s: State, step: Step)
    requires !step.ClaimTask?
    ensures |Apply(s, step).attempts| == |s.attempts|
  {
    if !step.Enqueue? && !step.AddTask? && !step.DeleteDocument? { StepAddsNothing(s, step); }
  }

  lemma {:induction false} RecoverKeepsLength(s: State, now: nat, order: seq<nat>)
    ensures SameRows(s, RecoverAll(s, now, order))
    decreases |order|
  {
    if order != [] {
      RecoverKeepsLength(if Expired(s, order[0], now) then RecoverTask(s, order[0]) else s, now, order[1..]);
    }
  }

  lemma {:induction false} SteadyKeepsEpochs(s: State, r: State)
    requires Linked(s) && EpochsBound(s) && Steady(s, r) && |r.attempts| == |s.attempts|
    ensures EpochsBound(r)
  {
    forall a | 0 <= a < |r.attempts| && r.attempts[a].job < |r.jobs|
      ensures r.attempts[a].epoch <= r.jobs[r.attempts[a].job].epoch
    {
      assert SteadyAttempt(s.attempts[a], r.attempts[a]);
      assert s.attempts[a].job == s.tasks[s.attempts[a].task].job;
      assert SteadyJob(s.jobs[s.attempts[a].job], r.jobs[s.attempts[a].job]);
    }
  }

  lemma {:induction false} StepKeepsEpochs(s: State, step: Step)
    requires Linked(s) && EpochsBound(s)
    ensures EpochsBound(Apply(s, step))
  {
    if step.ClaimTask? { ClaimKeepsEpochs(s, step.scene, step.seconds); }
    else {
      OnlyClaimsAddAttempts(s, step);
      StepIsSteady(s, step);
      SteadyKeepsEpochs(s, Apply(s, step));
    }
  }

  lemma {:induction false} OnlyTwoAddTasks(s: State, step: Step)
    requires !step.AddTask? && !step.DeleteDocument?
    ensures |Apply(s, step).tasks| == |s.tasks|
  {
    if !step.Enqueue? && !step.ClaimTask? { StepAddsNothing(s, step); }
  }

  lemma {:induction false} SteadyKeepsLinks(s: State, r: State)
    requires Linked(s) && Steady(s, r) && |r.tasks| == |s.tasks| && |r.attempts| == |s.attempts|
    ensures Linked(r)
  {
    forall t | 0 <= t < |r.tasks| ensures r.tasks[t].job < |r.jobs| { assert SteadyTask(s.tasks[t], r.tasks[t]); }
    forall a | 0 <= a < |r.attempts|
      ensures r.attempts[a].task < |r.tasks| && r.attempts[a].job == r.tasks[r.attempts[a].task].job
      ensures r.attempts[a].fence <= r.tasks[r.attempts[a].task].fence
    {
      assert SteadyAttempt(s.attempts[a], r.attempts[a])
        && SteadyTask(s.tasks[s.attempts[a].task], r.tasks[s.attempts[a].task]);
    }
    forall a, b | 0 <= a < b < |r.attempts| && r.attempts[a].task == r.attempts[b].task
      ensures r.attempts[a].fence != r.attempts[b].fence
    {
      assert SteadyAttempt(s.attempts[a], r.attempts[a]) && SteadyAttempt(s.attempts[b], r.attempts[b]);
    }
  }

  lemma {:induction false} NewRowsKeepLinks(s: State, step: Step)
    requires Linked(s) && (step.AddTask? || step.DeleteDocument?)
    ensures Linked(Apply(s, step))
  {}

  lemma {:induction false} ClaimKeepsLinks(s: State, scene: Scene, seconds: nat)
    requires Linked(s)
    ensures Linked(Apply(s, ClaimTask(scene, seconds)))
  {}

  lemma {:induction false} StepKeepsLinks(s: State, step: Step)
    requires Linked(s)
    ensures Linked(Apply(s, step))
  {
    if step.AddTask? || step.DeleteDocument? { NewRowsKeepLinks(s, step); }
    else if step.ClaimTask? { ClaimKeepsLinks(s, step.scene, step.seconds); }
    else {
      StepIsSteady(s, step);
      OnlyClaimsAddAttempts(s, step);
      OnlyTwoAddTasks(s, step);
      SteadyKeepsLinks(s, Apply(s, step));
    }
  }

  /** Every reachable state, by whatever transactions: the keys hold and no lease is ahead of its job. */
  lemma {:induction false} RunKeepsLinks(s: State, steps: seq<Step>)
    requires Linked(s) && EpochsBound(s)
    ensures Linked(Run(s, steps)) && EpochsBound(Run(s, steps))
    decreases |steps|
  {
    if steps != [] {
      var n := |steps| - 1;
      RunKeepsLinks(s, steps[..n]);
      StepKeepsLinks(Run(s, steps[..n]), steps[n]);
      StepKeepsEpochs(Run(s, steps[..n]), steps[n]);
    }
  }

  /** An accepted pause, cancel or stop, maintenance over a request in flight, deletion, a new source
      or a continuation overtakes what runs: after any run, every lease of the job taken before it is
      refused in every later state. The job itself may be claimed again, under a new lease. */
  lemma {:induction false} CommandsOvertakeLeases(settings: SettingsRow, before: seq<Step>, step: Step,
      after: seq<Step>, l: Lease,
      now: nat, memo: set<Lease>, allowed: set<JobStatus>, status: JobStatus)
    requires Issued(Run(Initial(settings), before), l) && Overtakes(Run(Initial(settings), before), step, l.job)
    ensures var r := Run(Apply(Run(Initial(settings), before), step), after);
      && Overtaken(r, l)
      && CurrentError(r, l, now, memo, allowed) in {"MAINTENANCE", "FENCE_EXPIRED", "CONTROL_CHANGED"}
      && !CanRenew(r, l, now)
      && Queue.Finish(r, l, now, memo, status).Failure?
  {
    var s := Run(Initial(settings), before);
    RunKeepsLinks(Initial(settings), before);
    StepIsSteady(s, step);
    var m := Apply(s, step);
    assert SteadyAttempt(s.attempts[l.attempt], m.attempts[l.attempt]);
    if step.Maintenance? { MaintenanceBumps(s, step, l.job); } else { CommandBumps(s, step, l.job); }
    OvertakenStaysRefused(m, after, l, now, memo, allowed, status);
  }

  /** A claim gives a live lease and kills every earlier lease of the same task. */
  lemma {:induction false} ClaimReplacesLeases(s: State, scene: Scene, seconds: nat, earlier: Lease)
    requires Linked(s) && Claim(s, scene, seconds).Some? && Issued(s, earlier)
    ensures var (r, l) := Claim(s, scene, seconds).value;
      && Issued(r, l) && !Dead(r, l) && !Issued(s, l)
      && (forall memo :: seconds > 0 ==> CurrentError(r, l, scene.now, memo, RUNNING) == "")
      && (earlier.task == l.task ==> Dead(r, earlier))
  {}

  /** A settled charge is final, and an unknown one stays counted until it is settled. */
  lemma {:induction false} ChargesAreKept(s: State, steps: seq<Step>, a: nat)
    requires a < |s.attempts| && s.attempts[a].permit.Some?
    ensures var r := Run(s, steps);
      && a < |r.attempts| && r.attempts[a].permit.Some?
      && r.attempts[a].permit.value.reserved == s.attempts[a].permit.value.reserved
      && (Holds(s.attempts[a], PermitState.Settled) ==> r.attempts[a].permit == s.attempts[a].permit)
      && (Holds(s.attempts[a], PermitState.Unknown) ==>
        Holds(r.attempts[a], PermitState.Unknown) || Holds(r.attempts[a], PermitState.Settled))
  {
    RunIsSteady(s, steps);
    assert SteadyAttempt(s.attempts[a], Run(s, steps).attempts[a]);
  }

  /** The report of a provider failure reaches its task: its lease is the newest, of the job's epoch
      and of a live document, and its outcome can be booked on the permit. */
  ghost predicate Lands(s: State, l: Lease, outcome: Outcome)
    requires Issued(s, l)
  {
    var task, job, a := s.tasks[l.task], s.jobs[l.job], s.attempts[l.attempt];
    && !Tombstoned(s, job) && task.fence == l.fence && job.epoch == l.epoch
    && match outcome
       case NotSent => a.permit.None? || Holds(a, PermitState.Reserved)
       case NotExecuted => a.permit.None? || Holds(a, PermitState.Reserved)
       case ExecutedInvalid => true
       case Unknown => a.permit.Some?
  }

  /** When it puts the task back to pending, whatever its state was. */
  ghost predicate Requeues(s: State, l: Lease, outcome: Outcome, code: string)
    requires Issued(s, l)
  {
    var task, a := s.tasks[l.task], s.attempts[l.attempt];
    && Lands(s, l, outcome) && !outcome.Unknown? && task.attempts < 3
    && code !in {"PROVIDER_CONFIG", "PROVIDER_UNSUPPORTED_RESPONSE", "PROVIDER_REFUSAL", "UNIT_TOO_LARGE"}
    && (outcome.ExecutedInvalid? ==> !Holds(a, PermitState.Reserved) && task.repairs < 1)
  }

  /** After the report the task is pending exactly when it was put back, or was pending before and
      the report did not reach it; no other task changes. */
  lemma {:induction false} RetryRequeues(s: State, l: Lease, outcome: Outcome, code: string, now: nat, delay: nat,
      repaired: Option<string>, finalized: Summary)
    requires Issued(s, l)
    ensures var r := Commit(s, RetryOrStop(s, l, outcome, code, now, delay, repaired, finalized));
      && (r.tasks[l.task].status.Pending? <==>
        Requeues(s, l, outcome, code) || (s.tasks[l.task].status.Pending? && !Lands(s, l, outcome)))
      && (Requeues(s, l, outcome, code) && outcome.ExecutedInvalid? ==>
        r.attempts[l.attempt].permit == s.attempts[l.attempt].permit)
      && (forall t :: 0 <= t < |s.tasks| && t != l.task ==> r.tasks[t] == s.tasks[t])
  {
    Classified(s, l.attempt, outcome);
  }
}
