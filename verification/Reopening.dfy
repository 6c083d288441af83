/** When a job whose running work was taken away can be claimed again. */
module Reopening {
  import opened Wrappers
  import opened Rows
  import opened Queue
  import opened Executor
  import opened Control
  import opened Steps
  import opened Safety
  import opened Runs

  /** The job states the claim query looks for. */
  predicate Claimable(job: JobRow) {
    job.status.Pending? || job.status.Running? || FrozenConfigWait(job)
  }

  /** Every lease of the job was taken before its latest epoch. */
  ghost predicate Withdrawn(s: State, j: nat) {
    && j < |s.jobs|
    && forall a :: 0 <= a < |s.attempts| && s.attempts[a].job == j ==> s.attempts[a].epoch < s.jobs[j].epoch
  }

  /** No executor can write the job's state: its leases are overtaken, or its document is deleted. */
  ghost predicate Shielded(s: State, j: nat) {
    Withdrawn(s, j) || (j < |s.jobs| && Tombstoned(s, s.jobs[j]))
  }

  ghost predicate InDoubt(s: State, t: nat)
    requires t < |s.tasks|
  {
    Uncertain(s, FindAttempt(s.attempts, t, s.tasks[t].fence))
  }

  /** Recovery puts the expired task and its job back: the request is certain, the task may be tried again,
      and at this moment its job is neither cancelled nor paused. */
  ghost predicate PutsBack(s: State, t: nat)
    requires t < |s.tasks| && s.tasks[t].job < |s.jobs|
  {
    var task, job := s.tasks[t], s.jobs[s.tasks[t].job];
    && !InDoubt(s, t) && task.kind != "provider_test" && !HasValidatedCheckpoint(s, t) && task.attempts < 3
    && !job.status.Cancelled? && !job.status.CancelRequested? && !job.status.Paused?
  }

  /** Recovery takes a job out of the claim query. */
  ghost predicate TakesOut(s: State, t: nat)
    requires t < |s.tasks|
  {
    InDoubt(s, t) || s.tasks[t].kind == "provider_test" || (s.tasks[t].attempts >= 3 && !HasValidatedCheckpoint(s, t))
  }

  lemma {:induction false} RecoverTaskReopens(s: State, t: nat)
    requires t < |s.tasks| && s.tasks[t].job < |s.jobs|
    ensures var j := s.tasks[t].job;
      && |RecoverTask(s, t).jobs| == |s.jobs|
      && (Claimable(RecoverTask(s, t).jobs[j]) <==>
            if Claimable(s.jobs[j]) then !TakesOut(s, t) else PutsBack(s, t))
      && forall i :: 0 <= i < |s.jobs| && i != j ==> RecoverTask(s, t).jobs[i] == s.jobs[i]
  {}

  /** The state in which recovery meets row `k` of its order. */
  function Met(s: State, now: nat, order: seq<nat>, k: nat): State
    requires k <= |order|
  {
    RecoverAll(s, now, order[..k])
  }

  /** Row `k` is an expired task of the job. */
  ghost predicate Meets(s: State, now: nat, order: seq<nat>, k: nat, j: nat)
    requires k < |order|
  {
    Expired(Met(s, now, order, k), order[k], now) && Met(s, now, order, k).tasks[order[k]].job == j
  }

  ghost predicate PutsBackAt(s: State, now: nat, order: seq<nat>, k: nat, j: nat)
    requires k < |order|
  {
    Meets(s, now, order, k, j) && PutsBack(Met(s, now, order, k), order[k])
  }

  ghost predicate TakesOutAt(s: State, now: nat, order: seq<nat>, k: nat, j: nat)
    requires k < |order|
  {
    Meets(s, now, order, k, j) && TakesOut(Met(s, now, order, k), order[k])
  }

  /** Row `k` puts the job back and no later row of the first `n` takes it out again. */
  ghost predicate LastPutsBack(s: State, now: nat, order: seq<nat>, k: nat, n: nat, j: nat)
    requires k < n <= |order|
  {
    PutsBackAt(s, now, order, k, j) && forall i :: k < i < n ==> !TakesOutAt(s, now, order, i, j)
  }

  lemma {:induction false} NextMet(s: State, now: nat, order: seq<nat>, k: nat)
    requires k < |order|
    ensures Met(s, now, order, k + 1) ==
      if Expired(Met(s, now, order, k), order[k], now) then RecoverTask(Met(s, now, order, k), order[k])
      else Met(s, now, order, k)
  {
    assert order[..k + 1] == order[..k] + [order[k]];
    RecoverAllLast(s, now, order[..k], order[k]);
  }

  lemma {:induction false} MetJobs(s: State, now: nat, order: seq<nat>, k: nat)
    requires k <= |order|
    ensures |Met(s, now, order, k).jobs| == |s.jobs|
  {
    RecoverKeepsLength(s, now, order[..k]);
  }

  /** One row of recovery, for one job. */
  lemma {:induction false} NextClaimable(s: State, now: nat, order: seq<nat>, k: nat, j: nat)
    requires k < |order| && j < |s.jobs|
    ensures |Met(s, now, order, k).jobs| == |Met(s, now, order, k + 1).jobs| == |s.jobs|
    ensures Claimable(Met(s, now, order, k + 1).jobs[j]) <==>
      if Claimable(Met(s, now, order, k).jobs[j]) then !TakesOutAt(s, now, order, k, j)
      else PutsBackAt(s, now, order, k, j)
  {
    var m := Met(s, now, order, k);
    NextMet(s, now, order, k);
    MetJobs(s, now, order, k);
    if Expired(m, order[k], now) { RecoverTaskReopens(m, order[k]); }
  }

  lemma {:induction false} PutsBackSooner(s: State, now: nat, order: seq<nat>, n: nat, j: nat)
    requires 0 < n <= |order|
    ensures forall k :: 0 <= k < n - 1 && LastPutsBack(s, now, order, k, n, j) ==>
      LastPutsBack(s, now, order, k, n - 1, j) && !TakesOutAt(s, now, order, n - 1, j)
  {}

  lemma {:induction false} RecoveredTo(s: State, now: nat, order: seq<nat>, n: nat, j: nat)
    requires n <= |order| && j < |s.jobs| && !Claimable(s.jobs[j])
    ensures |Met(s, now, order, n).jobs| == |s.jobs|
    ensures Claimable(Met(s, now, order, n).jobs[j]) <==>
      exists k :: 0 <= k < n && LastPutsBack(s, now, order, k, n, j)
  {
    if n > 0 {
      RecoveredTo(s, now, order, n - 1, j);
      NextClaimable(s, now, order, n - 1, j);
      if Claimable(Met(s, now, order, n).jobs[j]) {
        if Claimable(Met(s, now, order, n - 1).jobs[j]) {
          var k :| 0 <= k < n - 1 && LastPutsBack(s, now, order, k, n - 1, j);
          assert LastPutsBack(s, now, order, k, n, j);
        } else {
          assert LastPutsBack(s, now, order, n - 1, n, j);
        }
      }
      PutsBackSooner(s, now, order, n, j);
    }
  }

  /** Recovery makes a job claimable again exactly when some expired task of it is put back and no later
      one takes the job out. */
  lemma {:induction false} RecoveryReopens(s: State, now: nat, order: seq<nat>, j: nat)
    requires j < |s.jobs| && !Claimable(s.jobs[j])
    ensures |RecoverAll(s, now, order).jobs| == |s.jobs|
    ensures Claimable(RecoverAll(s, now, order).jobs[j]) <==>
      exists k :: 0 <= k < |order| && LastPutsBack(s, now, order, k, |order|, j)
  {
    RecoveredTo(s, now, order, |order|, j);
    assert order[..|order|] == order;
  }

  ghost predicate DoubtsAt(s: State, now: nat, order: seq<nat>, k: nat, j: nat)
    requires k < |order|
  {
    Meets(s, now, order, k, j) && InDoubt(Met(s, now, order, k), order[k])
  }

  lemma {:induction false} RecoverTaskCancels(s: State, t: nat)
    requires t < |s.tasks| && s.tasks[t].job < |s.jobs|
    ensures var j := s.tasks[t].job;
      && |RecoverTask(s, t).jobs| == |s.jobs|
      && (RecoverTask(s, t).jobs[j].status.Cancelled? <==> s.jobs[j].status.Cancelled? && !InDoubt(s, t))
      && forall i :: 0 <= i < |s.jobs| && i != j ==> RecoverTask(s, t).jobs[i] == s.jobs[i]
  {}

  lemma {:induction false} NextCancelled(s: State, now: nat, order: seq<nat>, k: nat, j: nat)
    requires k < |order| && j < |s.jobs|
    ensures |Met(s, now, order, k).jobs| == |Met(s, now, order, k + 1).jobs| == |s.jobs|
    ensures Met(s, now, order, k + 1).jobs[j].status.Cancelled? <==>
      Met(s, now, order, k).jobs[j].status.Cancelled? && !DoubtsAt(s, now, order, k, j)
  {
    var m := Met(s, now, order, k);
    NextMet(s, now, order, k);
    MetJobs(s, now, order, k);
    if Expired(m, order[k], now) { RecoverTaskCancels(m, order[k]); }
  }

  lemma {:induction false} CancelledTo(s: State, now: nat, order: seq<nat>, n: nat, j: nat)
    requires n <= |order| && j < |s.jobs| && s.jobs[j].status.Cancelled?
    ensures |Met(s, now, order, n).jobs| == |s.jobs|
    ensures !Met(s, now, order, n).jobs[j].status.Cancelled? <==> exists k ::
      0 <= k < n && DoubtsAt(s, now, order, k, j)
  {
    if n > 0 {
      CancelledTo(s, now, order, n - 1, j);
      NextCancelled(s, now, order, n - 1, j);
    }
  }

  /** Recovery overwrites a cancellation exactly when it meets an expired task of the job whose request is
      in flight or of unknown outcome. */
  lemma {:induction false} DoubtOverwritesCancel(s: State, now: nat, order: seq<nat>, j: nat)
    requires j < |s.jobs| && s.jobs[j].status.Cancelled?
    ensures |RecoverAll(s, now, order).jobs| == |s.jobs|
    ensures !RecoverAll(s, now, order).jobs[j].status.Cancelled? <==>
      exists k :: 0 <= k < |order| && DoubtsAt(s, now, order, k, j)
  {
    CancelledTo(s, now, order, |order|, j);
    assert order[..|order|] == order;
  }

  /** What makes a shielded job claimable again. */
  ghost predicate Reopens(s: State, step: Step, j: nat) {
    match step
    case Command(k, action) => k == j < |s.jobs| && action.Resume? && ControlJob(s, k, action).Success?
    case Resolve(a, decision, budget, risk) =>
      && a < |s.attempts| && s.attempts[a].job == j < |s.jobs| && s.attempts[a].task < |s.tasks|
      && decision.RetryAcceptRisk? && ResolveAttempt(s, a, decision, budget, risk).Success?
    case Recover(now, order) =>
      !s.settings.maintenance && exists k :: 0 <= k < |order| && LastPutsBack(s, now, order, k, |order|, j)
    case _ => false
  }

  ghost predicate StaysClosed(s: State, r: State, j: nat) {
    j < |s.jobs| <= |r.jobs| && (Claimable(r.jobs[j]) ==> Claimable(s.jobs[j]))
  }

  /** A closed job stays closed, and a cancelled one without a lease of its epoch cancelled. */
  ghost predicate SameUse(s: State, r: State, j: nat) {
    StaysClosed(s, r, j) && (Withdrawn(s, j) && s.jobs[j].status.Cancelled? ==> r.jobs[j].status.Cancelled?)
  }

  lemma {:induction false} LeaseStepsReopenNothing(s: State, step: Step, j: nat)
    requires Linked(s) && Shielded(s, j)
    requires (step.RenewLease? || step.FinishTask? || step.Wait? || step.AuthorizeDispatch?)
    ensures SameUse(s, Apply(s, step), j)
  {}

  lemma {:induction false} FailureReopensNothing(s: State, step: Step, j: nat)
    requires Linked(s) && Shielded(s, j) && step.FailTask?
    ensures SameUse(s, Apply(s, step), j)
  {}

  lemma {:induction false} StopReopensNothing(s: State, step: Step, j: nat)
    requires Linked(s) && Shielded(s, j) && step.StopConnectionTest?
    ensures SameUse(s, Apply(s, step), j)
  {}

  lemma {:induction false} RetryReopensNothing(s: State, l: Lease, outcome: Outcome, code: string, now: nat, delay: nat,
      repaired: Option<string>, finalized: Summary, j: nat)
    requires Linked(s) && Shielded(s, j) && Issued(s, l)
    ensures SameUse(s, Commit(s, RetryOrStop(s, l, outcome, code, now, delay, repaired, finalized)), j)
  {
    Classified(s, l.attempt, outcome);
  }

  lemma {:induction false} PermitStepsReopenNothing(s: State, step: Step, j: nat)
    requires Shielded(s, j)
    requires (step.MarkUncertain? || step.Release? || step.SettlePermit? || step.Checkpoint? || step.Dispatch?)
    ensures SameUse(s, Apply(s, step), j)
  {
    assert Apply(s, step).jobs == s.jobs;
  }

  lemma {:induction false} DocumentStepsReopenNothing(s: State, step: Step, j: nat)
    requires Shielded(s, j) && (step.DeleteDocument? || step.ReplaceSource? || step.ContinueDraft?)
    ensures SameUse(s, Apply(s, step), j)
  {}

  lemma {:induction false} CleanupReopensNothing(s: State, step: Step, j: nat)
    requires Shielded(s, j) && step.Cleanup?
    ensures SameUse(s, Apply(s, step), j)
  {}

  lemma {:induction false} QueueStepsReopenNothing(s: State, step: Step, j: nat)
    requires Shielded(s, j) && (step.Enqueue? || step.AddTask? || step.ClaimTask?)
    ensures SameUse(s, Apply(s, step), j)
  {}

  lemma {:induction false} UncertainReopensNothing(s: State, n: nat, j: nat)
    requires n <= |s.attempts| && j < |s.jobs|
    ensures StaysClosed(s, UncertainInflight(s, n), j)
  {
    if n > 0 { UncertainReopensNothing(s, n - 1, j); }
  }

  lemma {:induction false} MaintenanceReopensNothing(s: State, step: Step, j: nat)
    requires j < |s.jobs| && step.Maintenance?
    ensures StaysClosed(s, Apply(s, step), j)
  {
    var s1 := s.(settings := s.settings.(maintenance := step.enabled, dispatchDisabled := step.dispatchDisabled));
    UncertainReopensNothing(s1, |s1.attempts|, j);
  }

  ghost predicate Interferes(step: Step) {
    step.Command? || step.Resolve? || step.Recover? || step.Maintenance?
  }

  lemma {:induction false} OthersReopenNothing(s: State, step: Step, j: nat)
    requires Linked(s) && Shielded(s, j) && !Interferes(step)
    ensures SameUse(s, Apply(s, step), j)
  {
    match step
    case Retry(l, outcome, code, now, delay, repaired, finalized) =>
      if Issued(s, l) { RetryReopensNothing(s, l, outcome, code, now, delay, repaired, finalized, j); }
    case Cleanup(_, _) => CleanupReopensNothing(s, step, j);
    case _ =>
      if step.RenewLease? || step.FinishTask? || step.Wait? || step.AuthorizeDispatch? {
        LeaseStepsReopenNothing(s, step, j);
      } else if step.FailTask? {
        FailureReopensNothing(s, step, j);
      } else if step.StopConnectionTest? {
        StopReopensNothing(s, step, j);
      } else if step.DeleteDocument? || step.ReplaceSource? || step.ContinueDraft? {
        DocumentStepsReopenNothing(s, step, j);
      } else if step.Enqueue? || step.AddTask? || step.ClaimTask? {
        QueueStepsReopenNothing(s, step, j);
      } else {
        PermitStepsReopenNothing(s, step, j);
      }
  }

  lemma {:induction false} CommandReopens(s: State, step: Step, j: nat)
    requires Linked(s) && j < |s.jobs| && (step.Command? || step.Resolve?) && !Claimable(s.jobs[j])
    ensures |Apply(s, step).jobs| == |s.jobs|
    ensures Claimable(Apply(s, step).jobs[j]) <==> Reopens(s, step, j)
  {}

  /** A shielded job becomes claimable exactly by an accepted resume, by a risk-accepted retry, or by the
      recovery of one of its leased tasks, met while the job is neither cancelled nor paused. */
  lemma {:induction false} StepReopens(s: State, step: Step, j: nat)
    requires Linked(s) && Shielded(s, j) && !Claimable(s.jobs[j])
    ensures j < |Apply(s, step).jobs| && (Claimable(Apply(s, step).jobs[j]) <==> Reopens(s, step, j))
  {
    if step.Command? || step.Resolve? {
      CommandReopens(s, step, j);
    } else if step.Recover? {
      RecoveryReopens(s, step.now, step.order, j);
    } else if step.Maintenance? {
      MaintenanceReopensNothing(s, step, j);
    } else {
      OthersReopenNothing(s, step, j);
    }
  }

  lemma {:induction false} UncertainOneCloses(s: State, m: State, n: nat, j: nat)
    requires Linked(s) && n < |s.attempts| == |m.attempts| && j < |s.jobs| == |m.jobs| && |m.tasks| == |s.tasks|
    requires m.attempts[n] == s.attempts[n]
    requires m.jobs[j].status.OutcomeUnknown? || (s.attempts[n].job == j && Holds(s.attempts[n], PermitState.Reserved))
    ensures |UncertainOne(m, n).jobs| == |m.jobs| && UncertainOne(m, n).jobs[j].status.OutcomeUnknown?
  {}

  lemma {:induction false} UncertainCloses(s: State, n: nat, a: nat)
    requires Linked(s) && a < n <= |s.attempts| && Holds(s.attempts[a], PermitState.Reserved)
    ensures UncertainInflight(s, n).jobs[s.attempts[a].job].status.OutcomeUnknown?
  {
    UncertainRest(s, n - 1);
    if a < n - 1 { UncertainCloses(s, n - 1, a); }
    UncertainOneCloses(s, UncertainInflight(s, n - 1), n - 1, s.attempts[a].job);
  }

  lemma {:induction false} UncertainSpares(s: State, n: nat, j: nat)
    requires n <= |s.attempts| && j < |s.jobs|
    requires forall a :: 0 <= a < n ==> !(s.attempts[a].job == j && Holds(s.attempts[a], PermitState.Reserved))
    ensures UncertainInflight(s, n).jobs[j] == s.jobs[j]
  {
    if n > 0 {
      UncertainSpares(s, n - 1, j);
      UncertainRest(s, n - 1);
    }
  }

  /** A cancellation is overwritten by doubt alone: recovery that meets an expired task of the job whose
      request is open, or maintenance over a request of the job in flight. */
  ghost predicate OverwritesCancel(s: State, step: Step, j: nat) {
    match step
    case Recover(now, order) =>
      !s.settings.maintenance && exists k :: 0 <= k < |order| && DoubtsAt(s, now, order, k, j)
    case Maintenance(enabled, _) =>
      enabled && exists a ::
        0 <= a < |s.attempts| && s.attempts[a].job == j && Holds(s.attempts[a], PermitState.Reserved)
    case _ => false
  }

  lemma {:induction false} MaintenanceOverwrites(s: State, step: Step, j: nat)
    requires Linked(s) && j < |s.jobs| && s.jobs[j].status.Cancelled? && step.Maintenance?
    ensures j < |Apply(s, step).jobs|
    ensures !Apply(s, step).jobs[j].status.Cancelled? <==> OverwritesCancel(s, step, j)
  {
    var s1 := s.(settings := s.settings.(maintenance := step.enabled, dispatchDisabled := step.dispatchDisabled));
    if OverwritesCancel(s, step, j) {
      var a :| 0 <= a < |s.attempts| && s.attempts[a].job == j && Holds(s.attempts[a], PermitState.Reserved);
      UncertainCloses(s1, |s1.attempts|, a);
    } else if step.enabled {
      UncertainSpares(s1, |s1.attempts|, j);
    }
  }

  lemma {:induction false} CommandKeepsCancel(s: State, step: Step, j: nat)
    requires Linked(s) && j < |s.jobs| && s.jobs[j].status.Cancelled? && (step.Command? || step.Resolve?)
    ensures j < |Apply(s, step).jobs| && Apply(s, step).jobs[j].status.Cancelled?
  {}

  /** A job whose leases are all overtaken loses its cancellation exactly to such a step. */
  lemma {:induction false} CancelIsOverwritten(s: State, step: Step, j: nat)
    requires Linked(s) && Withdrawn(s, j) && s.jobs[j].status.Cancelled?
    ensures j < |Apply(s, step).jobs|
    ensures !Apply(s, step).jobs[j].status.Cancelled? <==> OverwritesCancel(s, step, j)
  {
    if step.Command? || step.Resolve? {
      CommandKeepsCancel(s, step, j);
    } else if step.Recover? {
      DoubtOverwritesCancel(s, step.now, step.order, j);
    } else if step.Maintenance? {
      MaintenanceOverwrites(s, step, j);
    } else {
      OthersReopenNothing(s, step, j);
    }
  }

  lemma {:induction false} OvertakenIsClosed(s: State, step: Step, j: nat)
    requires j < |s.jobs| && !step.Maintenance? && Overtakes(s, step, j)
    ensures j < |Apply(s, step).jobs| && !Claimable(Apply(s, step).jobs[j])
  {}

  lemma {:induction false} MaintenanceCloses(s: State, step: Step, j: nat)
    requires Linked(s) && j < |s.jobs| && step.Maintenance? && Overtakes(s, step, j)
    ensures j < |Apply(s, step).jobs| && !Claimable(Apply(s, step).jobs[j])
  {
    var s1 := s.(settings := s.settings.(maintenance := step.enabled, dispatchDisabled := step.dispatchDisabled));
    var a :| 0 <= a < |s.attempts| && s.attempts[a].job == j && Holds(s.attempts[a], PermitState.Reserved);
    UncertainCloses(s1, |s1.attempts|, a);
  }

  /** An accepted command takes the job out of the claim query and overtakes all its leases. */
  lemma {:induction false} OvertakesWithdraws(s: State, step: Step, j: nat)
    requires Linked(s) && EpochsBound(s) && j < |s.jobs| && Overtakes(s, step, j)
    ensures Withdrawn(Apply(s, step), j) && !Claimable(Apply(s, step).jobs[j])
  {
    var r := Apply(s, step);
    StepIsSteady(s, step);
    OnlyClaimsAddAttempts(s, step);
    if step.Maintenance? {
      MaintenanceBumps(s, step, j);
      MaintenanceCloses(s, step, j);
    } else {
      CommandBumps(s, step, j);
      OvertakenIsClosed(s, step, j);
    }
    forall a | 0 <= a < |r.attempts| && r.attempts[a].job == j ensures r.attempts[a].epoch < r.jobs[j].epoch {
      assert SteadyAttempt(s.attempts[a], r.attempts[a]);
    }
  }

  lemma {:induction false} ClaimStaysWithdrawn(s: State, scene: Scene, seconds: nat, j: nat)
    requires Withdrawn(s, j) && !Claimable(s.jobs[j])
    ensures Withdrawn(Apply(s, ClaimTask(scene, seconds)), j)
  {}

  /** New attempts come only with a claim, and only a claimable job is claimed. */
  lemma {:induction false} StaysWithdrawn(s: State, step: Step, j: nat)
    requires Withdrawn(s, j) && !Claimable(s.jobs[j])
    ensures Withdrawn(Apply(s, step), j)
  {
    if step.ClaimTask? {
      ClaimStaysWithdrawn(s, step.scene, step.seconds, j);
    } else {
      var r := Apply(s, step);
      StepIsSteady(s, step);
      OnlyClaimsAddAttempts(s, step);
      forall a | 0 <= a < |r.attempts| && r.attempts[a].job == j ensures r.attempts[a].epoch < r.jobs[j].epoch {
        assert SteadyAttempt(s.attempts[a], r.attempts[a]) && SteadyJob(s.jobs[j], r.jobs[j]);
      }
    }
  }

  /** Step `k` of the run made the job claimable. */
  ghost predicate ReopenedAt(s: State, steps: seq<Step>, k: nat, j: nat)
    requires k < |steps|
  {
    Reopens(Run(s, steps[..k]), steps[k], j)
  }

  ghost predicate Reopened(s: State, steps: seq<Step>, j: nat) {
    exists k :: 0 <= k < |steps| && ReopenedAt(s, steps, k, j)
  }

  lemma {:induction false} ReopenedLater(s: State, steps: seq<Step>, n: nat, j: nat)
    requires n <= |steps| && Reopened(s, steps[..n], j)
    ensures Reopened(s, steps, j)
  {
    var k :| 0 <= k < n && ReopenedAt(s, steps[..n], k, j);
    assert steps[..n][..k] == steps[..k];
    assert ReopenedAt(s, steps, k, j);
  }

  lemma {:induction false} WithdrawnUntilReopened(s: State, steps: seq<Step>, j: nat)
    requires Linked(s) && EpochsBound(s) && Withdrawn(s, j) && !Claimable(s.jobs[j])
    ensures Reopened(s, steps, j) || (Withdrawn(Run(s, steps), j) && !Claimable(Run(s, steps).jobs[j]))
    decreases |steps|
  {
    if steps != [] {
      var n := |steps| - 1;
      var m := Run(s, steps[..n]);
      WithdrawnUntilReopened(s, steps[..n], j);
      if Reopened(s, steps[..n], j) {
        ReopenedLater(s, steps, n, j);
      } else {
        RunKeepsLinks(s, steps[..n]);
        StaysWithdrawn(m, steps[n], j);
        StepReopens(m, steps[n], j);
        if Reopens(m, steps[n], j) { assert ReopenedAt(s, steps, n, j); }
      }
    }
  }

  /** After an accepted pause, cancel or stop, maintenance over a request in flight, deletion, a new source
      or a continuation the job can be claimed again only once a later step reopened it. */
  lemma {:induction false} ClaimedAgainIsReopened(settings: SettingsRow, before: seq<Step>, step: Step,
    after: seq<Step>,
      j: nat)
    requires j < |Run(Initial(settings), before).jobs| && Overtakes(Run(Initial(settings), before), step, j)
    requires var r := Run(Apply(Run(Initial(settings), before), step), after); j < |r.jobs| && Claimable(r.jobs[j])
    ensures Reopened(Apply(Run(Initial(settings), before), step), after, j)
  {
    var s := Run(Initial(settings), before);
    RunKeepsLinks(Initial(settings), before);
    OvertakesWithdraws(s, step, j);
    StepKeepsLinks(s, step);
    StepKeepsEpochs(s, step);
    WithdrawnUntilReopened(Apply(s, step), after, j);
  }

  /** A claim takes no other job. */
  lemma {:induction false} ClaimedIsClaimable(s: State, scene: Scene, seconds: nat)
    requires Claim(s, scene, seconds).Some?
    ensures var j := Claim(s, scene, seconds).value.1.job; j < |s.jobs| && Claimable(s.jobs[j])
  {}

  /** The job was queued by its document's deletion: the cleanup itself. */
  ghost predicate BornAt(s: State, steps: seq<Step>, k: nat, j: nat)
    requires k < |steps|
  {
    var m := Run(s, steps[..k]);
    && steps[k].DeleteDocument? && Deletion.DeleteDocument(m, steps[k].document, steps[k].now).Success?
    && j == |m.jobs|
  }

  /** Recovery reopened the job under its tombstone. */
  ghost predicate RecoveredAt(s: State, steps: seq<Step>, k: nat, j: nat)
    requires k < |steps|
  {
    var m := Run(s, steps[..k]);
    j < |m.jobs| && Tombstoned(m, m.jobs[j]) && steps[k].Recover? && ReopenedAt(s, steps, k, j)
  }

  ghost predicate BornOrRecovered(s: State, steps: seq<Step>, j: nat) {
    exists k :: 0 <= k < |steps| && (BornAt(s, steps, k, j) || RecoveredAt(s, steps, k, j))
  }

  lemma {:induction false} BornOrRecoveredLater(s: State, steps: seq<Step>, n: nat, j: nat)
    requires n <= |steps| && BornOrRecovered(s, steps[..n], j)
    ensures BornOrRecovered(s, steps, j)
  {
    var k :| 0 <= k < n && (BornAt(s, steps[..n], k, j) || RecoveredAt(s, steps[..n], k, j));
    assert steps[..n][..k] == steps[..k];
    assert BornAt(s, steps, k, j) || RecoveredAt(s, steps, k, j);
  }

  /** Deletion leaves none of the document's jobs claimable but the cleanup it queues. */
  lemma {:induction false} DeletionCloses(s: State, step: Step, j: nat)
    requires j < |s.jobs| && !Tombstoned(s, s.jobs[j])
    requires j < |Apply(s, step).jobs| && Tombstoned(Apply(s, step), Apply(s, step).jobs[j])
    ensures !Claimable(Apply(s, step).jobs[j])
  {
    StepIsSteady(s, step);
    assert SteadyJob(s.jobs[j], Apply(s, step).jobs[j]);
    OnlyDeletionMarks(s, step);
  }

  lemma {:induction false} RecoverMarksNothing(s: State, now: nat, order: seq<nat>)
    ensures RecoverAll(s, now, order).deleted == s.deleted
    decreases |order|
  {
    if order != [] {
      RecoverMarksNothing(if Expired(s, order[0], now) then RecoverTask(s, order[0]) else s, now, order[1..]);
    }
  }

  lemma {:induction false} UncertainMarksNothing(s: State, n: nat)
    requires n <= |s.attempts|
    ensures UncertainInflight(s, n).deleted == s.deleted
  {
    if n > 0 { UncertainMarksNothing(s, n - 1); }
  }

  lemma {:induction false} WorkMarksNothing(s: State, step: Step)
    requires step.FailTask? || step.Retry? || step.StopConnectionTest? || step.Wait? || step.Cleanup?
      || step.FinishTask?
    ensures Apply(s, step).deleted == s.deleted
  {}

  lemma {:induction false} OnlyDeletionMarks(s: State, step: Step)
    ensures step.DeleteDocument? || Apply(s, step).deleted == s.deleted
  {
    match step
    case Recover(now, order) => RecoverMarksNothing(s, now, order);
    case Maintenance(enabled, disabled) =>
      var s1 := s.(settings := s.settings.(maintenance := enabled, dispatchDisabled := disabled));
      UncertainMarksNothing(s1, |s1.attempts|);
    case _ =>
      if step.FailTask? || step.Retry? || step.StopConnectionTest? || step.Wait? || step.Cleanup? || step.FinishTask? {
        WorkMarksNothing(s, step);
      }
  }

  lemma {:induction false} NewTombstoned(s: State, step: Step, j: nat)
    requires |s.jobs| <= j < |Apply(s, step).jobs| && Tombstoned(Apply(s, step), Apply(s, step).jobs[j])
    ensures step.DeleteDocument? && Deletion.DeleteDocument(s, step.document, step.now).Success? && j == |s.jobs|
  {
    if !step.Enqueue? && !step.AddTask? && !step.DeleteDocument? && !step.ClaimTask? { StepAddsNothing(s, step); }
  }

  /** A claimable job of a deleted document is the cleanup its deletion queued, or recovery put it back. */
  lemma {:induction false} DeletedIsBornOrRecovered(settings: SettingsRow, steps: seq<Step>, j: nat)
    requires var r := Run(Initial(settings), steps); j < |r.jobs| && Tombstoned(r, r.jobs[j]) && Claimable(r.jobs[j])
    ensures BornOrRecovered(Initial(settings), steps, j)
    decreases |steps|
  {
    if steps != [] {
      var s, n := Initial(settings), |steps| - 1;
      var m, step := Run(s, steps[..n]), steps[n];
      if |m.jobs| <= j {
        NewTombstoned(m, step, j);
        assert BornAt(s, steps, n, j);
      } else if !Tombstoned(m, m.jobs[j]) {
        DeletionCloses(m, step, j);
        assert false;
      } else if Claimable(m.jobs[j]) {
        DeletedIsBornOrRecovered(settings, steps[..n], j);
        BornOrRecoveredLater(s, steps, n, j);
      } else {
        RunKeepsLinks(s, steps[..n]);
        StepReopens(m, step, j);
        assert RecoveredAt(s, steps, n, j);
      }
    }
  }
}
