/** A cancelled task is never worked on again, and neither is a deleted document's closed one. */
module Retirement {
  import opened Wrappers
  import opened Rows
  import opened Queue
  import opened Executor
  import opened Control
  import opened Deletion
  import opened Steps
  import opened Safety
  import opened Runs
  import opened Workers

  /** No request of the task is in flight, and its newest attempt was overtaken. */
  ghost predicate Stale(s: State, t: nat)
    requires t < |s.tasks| && s.tasks[t].job < |s.jobs|
  {
    forall a :: 0 <= a < |s.attempts| && s.attempts[a].task == t ==>
      && !Holds(s.attempts[a], PermitState.Reserved)
      && (s.attempts[a].fence == s.tasks[t].fence ==> s.attempts[a].epoch < s.jobs[s.tasks[t].job].epoch)
  }

  ghost predicate Retired(s: State, t: nat) {
    && t < |s.tasks| && s.tasks[t].job < |s.jobs|
    && (|| (Tombstoned(s, s.jobs[s.tasks[t].job]) && !s.tasks[t].status.Pending? && !s.tasks[t].status.Leased?)
        || (s.tasks[t].status.Cancelled? && Stale(s, t)))
  }

  /** The row and every request of the task are as retired as before. */
  ghost predicate LeavesRetired(s: State, r: State, t: nat) {
    && t < |s.tasks| <= |r.tasks| && s.tasks[t].job < |s.jobs|
    && (r.tasks[t].status == s.tasks[t].status || r.tasks[t].status.Cancelled? || r.tasks[t].status.OutcomeUnknown?)
    && (s.tasks[t].status.Cancelled? && Stale(s, t) ==> r.tasks[t].status.Cancelled?)
    && r.tasks[t].fence == s.tasks[t].fence
    && (forall a :: 0 <= a < |r.attempts| && r.attempts[a].task == t && Holds(r.attempts[a], PermitState.Reserved) ==>
         a < |s.attempts| && s.attempts[a].task == t && Holds(s.attempts[a], PermitState.Reserved))
    && (forall a :: |s.attempts| <= a < |r.attempts| ==> r.attempts[a].task != t)
  }

  lemma {:induction false} StaysRetired(s: State, r: State, t: nat)
    requires Retired(s, t) && Steady(s, r) && LeavesRetired(s, r, t)
    ensures Retired(r, t)
  {
    assert SteadyTask(s.tasks[t], r.tasks[t]) && SteadyJob(s.jobs[s.tasks[t].job], r.jobs[s.tasks[t].job]);
    if s.tasks[t].status.Cancelled? && Stale(s, t) {
      forall a | 0 <= a < |r.attempts| && r.attempts[a].task == t
        ensures !Holds(r.attempts[a], PermitState.Reserved)
        ensures r.attempts[a].fence == r.tasks[t].fence ==> r.attempts[a].epoch < r.jobs[r.tasks[t].job].epoch
      {
        assert SteadyAttempt(s.attempts[a], r.attempts[a]);
      }
    }
  }

  lemma {:induction false} LeaseLeavesRetired(s: State, step: Step, t: nat)
    requires Linked(s) && Retired(s, t) && (step.RenewLease? || step.FinishTask?)
    ensures LeavesRetired(s, Apply(s, step), t)
  {}

  lemma {:induction false} WaitLeavesRetired(s: State, step: Step, t: nat)
    requires Linked(s) && Retired(s, t) && (step.Wait? || step.AuthorizeDispatch?)
    ensures LeavesRetired(s, Apply(s, step), t)
  {}

  lemma {:induction false} FailLeavesRetired(s: State, step: Step, t: nat)
    requires Linked(s) && Retired(s, t) && step.FailTask?
    ensures LeavesRetired(s, Apply(s, step), t)
  {}

  lemma {:induction false} StopLeavesRetired(s: State, step: Step, t: nat)
    requires Linked(s) && Retired(s, t) && step.StopConnectionTest?
    ensures LeavesRetired(s, Apply(s, step), t)
  {
    if Issued(s, step.lease) { StopTestRewrites(s, step); assert Apply(s, step).tasks[t] == s.tasks[t]; }
  }

  lemma {:induction false} RetryLeavesRetired(s: State, l: Lease, outcome: Outcome, code: string, now: nat, delay: nat,
      repaired: Option<string>,
      finalized: Summary, t: nat)
    requires Linked(s) && Issued(s, l) && Retired(s, t)
    ensures LeavesRetired(s, Commit(s, RetryOrStop(s, l, outcome, code, now, delay, repaired, finalized)), t)
  {
    Classified(s, l.attempt, outcome);
  }

  lemma {:induction false} MarksLeaveRetired(s: State, step: Step, t: nat)
    requires Linked(s) && Retired(s, t) && (step.MarkUncertain? || step.Release?)
    ensures LeavesRetired(s, Apply(s, step), t)
  {}

  lemma {:induction false} CheckpointLeavesRetired(s: State, step: Step, t: nat)
    requires Linked(s) && Retired(s, t) && step.Checkpoint?
    ensures LeavesRetired(s, Apply(s, step), t)
  {}

  lemma {:induction false} SettlingLeavesRetired(s: State, step: Step, t: nat)
    requires Linked(s) && Retired(s, t) && step.SettlePermit?
    ensures LeavesRetired(s, Apply(s, step), t)
  {}

  lemma {:induction false} CommandsLeaveRetired(s: State, step: Step, t: nat)
    requires Linked(s) && Retired(s, t)
    requires step.Command? || step.Dispatch? || step.ReplaceSource? || step.ContinueDraft? || step.Enqueue?
      || step.AddTask? || step.DeleteDocument?
    ensures LeavesRetired(s, Apply(s, step), t)
  {}

  lemma {:induction false} ResolveLeavesRetired(s: State, step: Step, t: nat)
    requires Linked(s) && Retired(s, t) && step.Resolve?
    ensures LeavesRetired(s, Apply(s, step), t)
  {}

  lemma {:induction false} ClaimLeavesRetired(s: State, scene: Scene, seconds: nat, t: nat)
    requires Linked(s) && Retired(s, t)
    ensures LeavesRetired(s, Apply(s, ClaimTask(scene, seconds)), t)
  {}

  lemma {:induction false} EraseRetires(s: State, d: nat, keep: nat, t: nat)
    requires Linked(s) && Retired(s, t)
    ensures LeavesRetired(s, Erase(s, d, keep), t)
  {
    ErasedTask(s, t, d, keep);
  }

  lemma {:induction false} FinishLeavesRetired(s: State, l: Lease, now: nat, memo: set<Lease>, status: JobStatus,
      t: nat)
    requires Linked(s) && Issued(s, l) && Retired(s, t)
    ensures LeavesRetired(s, Commit(s, Queue.Finish(s, l, now, memo, status)), t)
  {}

  lemma {:induction false} EraseStaysRetired(s: State, d: nat, keep: nat, t: nat)
    requires Linked(s) && Retired(s, t)
    ensures Retired(Erase(s, d, keep), t) && Linked(Erase(s, d, keep))
  {
    EraseRetires(s, d, keep, t);
    EraseIsSteady(s, d, keep);
    StaysRetired(s, Erase(s, d, keep), t);
    SteadyKeepsLinks(s, Erase(s, d, keep));
  }

  lemma {:induction false} FinishStaysRetired(s: State, l: Lease, now: nat, memo: set<Lease>, status: JobStatus, t: nat)
    requires Linked(s) && Issued(s, l) && Retired(s, t)
    ensures Retired(Commit(s, Queue.Finish(s, l, now, memo, status)), t)
  {
    FinishLeavesRetired(s, l, now, memo, status, t);
    FinishIsSteady(s, l, now, memo, status);
    StaysRetired(s, Commit(s, Queue.Finish(s, l, now, memo, status)), t);
  }

  lemma {:induction false} CleanupStaysRetired(s: State, l: Lease, now: nat, t: nat)
    requires Linked(s) && Retired(s, t) && Issued(s, l) && CleansUp(s, l, now)
    ensures Retired(Apply(s, Cleanup(l, now)), t)
  {
    EraseStaysRetired(s, s.jobs[l.job].document.value, l.task, t);
    FinishStaysRetired(Erase(s, s.jobs[l.job].document.value, l.task), l, now, {l}, JobStatus.Ended("succeeded"), t);
  }

  lemma {:induction false} RecoverTaskStaysRetired(s: State, u: nat, t: nat)
    requires Linked(s) && Retired(s, t) && u < |s.tasks| && s.tasks[u].status.Leased?
    ensures Retired(RecoverTask(s, u), t) && Linked(RecoverTask(s, u))
  {
    RecoverTaskIsSteady(s, u);
    RecoverTaskRows(s, u);
    SteadyKeepsLinks(s, RecoverTask(s, u));
    StaysRetired(s, RecoverTask(s, u), t);
  }

  lemma {:induction false} RecoverStaysRetired(s: State, now: nat, order: seq<nat>, t: nat)
    requires Linked(s) && Retired(s, t)
    ensures Retired(RecoverAll(s, now, order), t)
    decreases |order|
  {
    if order != [] {
      if Expired(s, order[0], now) { RecoverTaskStaysRetired(s, order[0], t); }
      RecoverStaysRetired(if Expired(s, order[0], now) then RecoverTask(s, order[0]) else s, now, order[1..], t);
    }
  }

  /** Only requests in flight are touched, and a stale task has none. */
  lemma {:induction false} UncertainLeavesRetired(s: State, n: nat, t: nat)
    requires Linked(s) && Retired(s, t) && n <= |s.attempts|
    ensures LeavesRetired(s, UncertainInflight(s, n), t)
  {
    UncertainTask(s, n, t);
    UncertainOnlyDoubts(s, n);
    UncertainIsSteady(s, n);
    forall a | 0 <= a < |s.attempts| ensures SteadyAttempt(s.attempts[a], UncertainInflight(s, n).attempts[a]) {}
  }

  lemma {:induction false} UncertainTask(s: State, n: nat, t: nat)
    requires t < |s.tasks| && n <= |s.attempts|
    ensures var r := UncertainInflight(s, n);
      && r.tasks[t] == s.tasks[t].(status := r.tasks[t].status)
      && (r.tasks[t].status == s.tasks[t].status || r.tasks[t].status.OutcomeUnknown?)
      && (r.tasks[t].status != s.tasks[t].status ==>
           exists a :: 0 <= a < n && s.attempts[a].task == t && Holds(s.attempts[a], PermitState.Reserved))
  {
    if n > 0 {
      UncertainTask(s, n - 1, t);
      UncertainRest(s, n - 1);
    }
  }

  lemma {:induction false} UncertainStaysRetired(s: State, n: nat, t: nat)
    requires Linked(s) && Retired(s, t) && n <= |s.attempts|
    ensures Retired(UncertainInflight(s, n), t)
  {
    UncertainIsSteady(s, n);
    UncertainLeavesRetired(s, n, t);
    StaysRetired(s, UncertainInflight(s, n), t);
  }

  lemma {:induction false} StepStaysRetired(s: State, step: Step, t: nat)
    requires Linked(s) && Retired(s, t)
    ensures Retired(Apply(s, step), t)
  {
    if step.Recover? { RecoverStaysRetired(s, step.now, step.order, t); }
    else if step.Maintenance? {
      UncertainStaysRetired(s.(settings := s.settings.(maintenance := step.enabled,
        dispatchDisabled := step.dispatchDisabled)), |s.attempts|, t);
    } else if step.Cleanup? {
      if Issued(s, step.lease) && CleansUp(s, step.lease, step.now) { CleanupStaysRetired(s, step.lease, step.now, t); }
    } else {
      StepIsSteady(s, step);
      if step.Retry? {
        if Issued(s, step.lease) {
          RetryLeavesRetired(s, step.lease, step.outcome, step.code, step.now, step.delay, step.repaired,
            step.finalized, t);
        }
      }
      else if step.StopConnectionTest? { StopLeavesRetired(s, step, t); }
      else if step.Resolve? { ResolveLeavesRetired(s, step, t); }
      else if step.ClaimTask? { ClaimLeavesRetired(s, step.scene, step.seconds, t); }
      else if step.MarkUncertain? || step.Release? { MarksLeaveRetired(s, step, t); }
      else if step.SettlePermit? { SettlingLeavesRetired(s, step, t); }
      else if step.Checkpoint? { CheckpointLeavesRetired(s, step, t); }
      else if step.RenewLease? || step.FinishTask? { LeaseLeavesRetired(s, step, t); }
      else if step.Wait? || step.AuthorizeDispatch? { WaitLeavesRetired(s, step, t); }
      else if step.FailTask? { FailLeavesRetired(s, step, t); }
      else { CommandsLeaveRetired(s, step, t); }
      StaysRetired(s, Apply(s, step), t);
    }
  }

  /** A retired task stays retired over any run, so no later claim takes it. */
  lemma {:induction false} RetiredIsNeverClaimed(s: State, steps: seq<Step>, t: nat, scene: Scene, seconds: nat)
    requires Linked(s) && EpochsBound(s) && Retired(s, t)
    ensures var r := Run(s, steps);
      && Retired(r, t) && !r.tasks[t].status.Pending? && !r.tasks[t].status.Leased?
      && (Claim(r, scene, seconds).Some? ==> Claim(r, scene, seconds).value.1.task != t)
    decreases |steps|
  {
    if steps != [] {
      var n := |steps| - 1;
      RetiredIsNeverClaimed(s, steps[..n], t, scene, seconds);
      RunKeepsLinks(s, steps[..n]);
      StepStaysRetired(Run(s, steps[..n]), steps[n], t);
    }
  }

  /** A cancelled job has no running work: the newest attempt of every leased task was overtaken. */
  ghost predicate CancelledJobsIdle(s: State)
    requires Linked(s)
  {
    forall a :: 0 <= a < |s.attempts| && RunsFor(s, a) ==> s.attempts[a].epoch < s.jobs[s.attempts[a].job].epoch
  }

  /** The newest attempt of a leased task in a cancelled job. */
  ghost predicate RunsFor(s: State, a: nat)
    requires Linked(s) && a < |s.attempts|
  {
    var task, job := s.tasks[s.attempts[a].task], s.jobs[s.attempts[a].job];
    task.status.Leased? && task.fence == s.attempts[a].fence && (job.status.Cancelled? || job.status.CancelRequested?)
  }

  ghost predicate CancelledTasksRetired(s: State) {
    forall t :: 0 <= t < |s.tasks| && s.tasks[t].status.Cancelled? ==> Retired(s, t)
  }

  /** A job became cancelled only together with a new epoch, or when nothing of it was running. */
  ghost predicate CancelsCleanly(s: State, r: State) {
    && |s.jobs| <= |r.jobs|
    && forall j :: 0 <= j < |s.jobs| ==> CancelsJobCleanly(s, r, j)
  }

  ghost predicate CancelsJobCleanly(s: State, r: State, j: nat)
    requires j < |s.jobs| <= |r.jobs|
  {
    (r.jobs[j].status.Cancelled? || r.jobs[j].status.CancelRequested?) ==>
      || s.jobs[j].status == r.jobs[j].status || s.jobs[j].epoch < r.jobs[j].epoch
      || forall t :: 0 <= t < |r.tasks| && r.tasks[t].job == j ==> !r.tasks[t].status.Leased?
  }

  lemma {:induction false} CleanCancelsKeepIdle(s: State, r: State)
    requires Linked(s) && Linked(r) && EpochsBound(s) && CancelledJobsIdle(s) && Steady(s, r) && CancelsCleanly(s, r)
    requires |r.attempts| == |s.attempts|
    ensures CancelledJobsIdle(r)
  {
    forall a | 0 <= a < |r.attempts| && RunsFor(r, a) ensures r.attempts[a].epoch < r.jobs[r.attempts[a].job].epoch {
      assert SteadyAttempt(s.attempts[a], r.attempts[a]);
      var t, j := s.attempts[a].task, s.attempts[a].job;
      assert SteadyTask(s.tasks[t], r.tasks[t]) && SteadyJob(s.jobs[j], r.jobs[j]) && CancelsJobCleanly(s, r, j);
      assert s.jobs[j].status == r.jobs[j].status ==> RunsFor(s, a);
    }
  }

  lemma {:induction false} LeaseStepCancelsCleanly(s: State, step: Step)
    requires step.RenewLease? || step.FinishTask? || step.Wait? || step.AuthorizeDispatch?
    ensures CancelsCleanly(s, Apply(s, step))
  {}

  lemma {:induction false} FailureCancelsCleanly(s: State, step: Step)
    requires step.FailTask?
    ensures CancelsCleanly(s, Apply(s, step))
  {}

  lemma {:induction false} StopCancelsCleanly(s: State, step: Step)
    requires step.StopConnectionTest?
    ensures CancelsCleanly(s, Apply(s, step))
  {}

  lemma {:induction false} RetryCancelsCleanly(s: State, l: Lease, outcome: Outcome, code: string, now: nat,
      delay: nat, repaired: Option<string>,
      finalized: Summary)
    requires Issued(s, l)
    ensures CancelsCleanly(s, Commit(s, RetryOrStop(s, l, outcome, code, now, delay, repaired, finalized)))
  {
    Classified(s, l.attempt, outcome);
  }

  lemma {:induction false} SameJobsCancelCleanly(s: State, r: State)
    requires r.jobs == s.jobs
    ensures CancelsCleanly(s, r)
  {}

  lemma {:induction false} PermitStepCancelsCleanly(s: State, step: Step)
    requires step.MarkUncertain? || step.Release? || step.SettlePermit? || step.Checkpoint? || step.Dispatch?
    ensures CancelsCleanly(s, Apply(s, step))
  {
    assert Apply(s, step).jobs == s.jobs;
    SameJobsCancelCleanly(s, Apply(s, step));
  }

  lemma {:induction false} CommandCancelsCleanly(s: State, step: Step)
    requires step.Command?
    ensures CancelsCleanly(s, Apply(s, step))
  {}

  lemma {:induction false} ResolveCancelsCleanly(s: State, step: Step)
    requires step.Resolve?
    ensures CancelsCleanly(s, Apply(s, step))
  {}

  lemma {:induction false} NewRowsCancelCleanly(s: State, step: Step)
    requires step.Enqueue? || step.AddTask?
    ensures CancelsCleanly(s, Apply(s, step))
  {}

  lemma {:induction false} DocumentStepCancelsCleanly(s: State, step: Step)
    requires step.ReplaceSource? || step.ContinueDraft? || step.DeleteDocument?
    ensures CancelsCleanly(s, Apply(s, step))
  {
    forall j | 0 <= j < |s.jobs|
      ensures Apply(s, step).jobs[j].status == s.jobs[j].status || s.jobs[j].epoch < Apply(s, step).jobs[j].epoch
    {}
  }

  lemma {:induction false} CleanupCancelsCleanly(s: State, step: Step)
    requires step.Cleanup?
    ensures CancelsCleanly(s, Apply(s, step))
  {}

  lemma {:induction false} MaintenanceCancelsCleanly(s: State, n: nat)
    requires n <= |s.attempts|
    ensures forall j :: 0 <= j < |s.jobs| ==>
      var r := UncertainInflight(s, n); r.jobs[j].status == s.jobs[j].status || r.jobs[j].status.OutcomeUnknown?
  {
    if n > 0 { MaintenanceCancelsCleanly(s, n - 1); }
  }

  lemma {:induction false} StepCancelsCleanly(s: State, step: Step)
    requires !step.Recover? && !step.ClaimTask?
    ensures CancelsCleanly(s, Apply(s, step))
  {
    match step
    case Maintenance(enabled, disabled) =>
      MaintenanceCancelsCleanly(s.(settings := s.settings.(maintenance := enabled, dispatchDisabled := disabled)),
        |s.attempts|);
    case Retry(l, outcome, code, now, delay, repaired, finalized) =>
      if Issued(s, l) { RetryCancelsCleanly(s, l, outcome, code, now, delay, repaired, finalized); }
    case Cleanup(_, _) => CleanupCancelsCleanly(s, step);
    case _ =>
      if step.RenewLease? || step.FinishTask? || step.Wait? || step.AuthorizeDispatch? {
        LeaseStepCancelsCleanly(s, step);
      }
      else if step.FailTask? { FailureCancelsCleanly(s, step); }
      else if step.StopConnectionTest? { StopCancelsCleanly(s, step); }
      else if step.Command? { CommandCancelsCleanly(s, step); }
      else if step.Resolve? { ResolveCancelsCleanly(s, step); }
      else if step.Enqueue? || step.AddTask? { NewRowsCancelCleanly(s, step); }
      else if step.MarkUncertain? || step.Release? || step.SettlePermit? || step.Checkpoint? || step.Dispatch? {
        PermitStepCancelsCleanly(s, step);
      }
      else { DocumentStepCancelsCleanly(s, step); }
  }

  lemma {:induction false} RecoverTaskCancelsCleanly(s: State, t: nat)
    requires t < |s.tasks| && s.tasks[t].job < |s.jobs|
    ensures CancelsCleanly(s, RecoverTask(s, t))
  {}

  lemma {:induction false} ClaimKeepsIdle(s: State, scene: Scene, seconds: nat)
    requires Linked(s) && CancelledJobsIdle(s) && Linked(Apply(s, ClaimTask(scene, seconds)))
    ensures CancelledJobsIdle(Apply(s, ClaimTask(scene, seconds)))
  {
    var r := Apply(s, ClaimTask(scene, seconds));
    forall a | 0 <= a < |r.attempts| && RunsFor(r, a) ensures r.attempts[a].epoch < r.jobs[r.attempts[a].job].epoch {
      assert a < |s.attempts| && r.attempts[a] == s.attempts[a];
      assert RunsFor(s, a);
    }
  }

  /** What every reachable state of a run in order is like. */
  ghost predicate Orderly(s: State) {
    Kept(s) && EpochsBound(s) && CancelledJobsIdle(s) && CancelledTasksRetired(s)
  }

  lemma {:induction false} RecoverTaskRetires(s: State, t: nat)
    requires Orderly(s) && t < |s.tasks| && s.tasks[t].status.Leased?
    ensures var r := RecoverTask(s, t); |r.tasks| == |s.tasks| && (r.tasks[t].status.Cancelled? ==> Retired(r, t))
  {
    var r := RecoverTask(s, t);
    RecoverTaskRows(s, t);
    if r.tasks[t].status.Cancelled? {
      forall a | 0 <= a < |r.attempts| && r.attempts[a].task == t
        ensures !Holds(r.attempts[a], PermitState.Reserved)
        ensures r.attempts[a].fence == r.tasks[t].fence ==> r.attempts[a].epoch < r.jobs[r.tasks[t].job].epoch
      {
        if s.attempts[a].fence == s.tasks[t].fence {
          assert FindAttempt(s.attempts, t, s.tasks[t].fence) == Some(a);
          assert RunsFor(s, a);
        }
      }
    }
  }

  lemma {:induction false} RecoverTaskOrderly(s: State, t: nat)
    requires Orderly(s) && t < |s.tasks| && s.tasks[t].status.Leased?
    ensures Orderly(RecoverTask(s, t))
  {
    var r := RecoverTask(s, t);
    RecoverTaskQuiet(s, t);
    QuietKeeps(s, r);
    RecoverTaskRows(s, t);
    RecoverTaskIsSteady(s, t);
    SteadyKeepsEpochs(s, r);
    RecoverTaskCancelsCleanly(s, t);
    CleanCancelsKeepIdle(s, r);
    forall u | 0 <= u < |r.tasks| && r.tasks[u].status.Cancelled? ensures Retired(r, u) {
      if u == t { RecoverTaskRetires(s, t); } else { RecoverTaskStaysRetired(s, t, u); }
    }
  }

  lemma {:induction false} RecoverOrderly(s: State, now: nat, order: seq<nat>)
    requires Orderly(s)
    ensures Orderly(RecoverAll(s, now, order))
    decreases |order|
  {
    if order != [] {
      if Expired(s, order[0], now) { RecoverTaskOrderly(s, order[0]); }
      RecoverOrderly(if Expired(s, order[0], now) then RecoverTask(s, order[0]) else s, now, order[1..]);
    }
  }

  /** A task is newly cancelled only by recovery and by the cleanup of its document. */
  ghost predicate NewlyCancelled(s: State, r: State, t: nat)
    requires t < |r.tasks|
  {
    r.tasks[t].status.Cancelled? && !(t < |s.tasks| && s.tasks[t].status.Cancelled?)
  }

  ghost predicate CancelsNoTask(s: State, r: State) {
    forall t :: 0 <= t < |r.tasks| ==> !NewlyCancelled(s, r, t)
  }

  lemma {:induction false} SameTasksCancelNone(s: State, r: State)
    requires r.tasks == s.tasks
    ensures CancelsNoTask(s, r)
  {}

  lemma {:induction false} LeaseStepCancelsNoTask(s: State, step: Step)
    requires step.RenewLease? || step.FinishTask? || step.Wait? || step.FailTask?
    ensures CancelsNoTask(s, Apply(s, step))
  {}

  lemma {:induction false} StopCancelsNoTask(s: State, step: Step)
    requires step.StopConnectionTest?
    ensures CancelsNoTask(s, Apply(s, step))
  {}

  lemma {:induction false} RetryCancelsNoTask(s: State, l: Lease, outcome: Outcome, code: string, now: nat, delay: nat,
      repaired: Option<string>,
      finalized: Summary)
    requires Issued(s, l)
    ensures CancelsNoTask(s, Commit(s, RetryOrStop(s, l, outcome, code, now, delay, repaired, finalized)))
  {
    Classified(s, l.attempt, outcome);
  }

  lemma {:induction false} NewRowsCancelNoTask(s: State, step: Step)
    requires step.ClaimTask? || step.AddTask? || step.DeleteDocument? || step.Resolve?
    ensures CancelsNoTask(s, Apply(s, step))
  {}

  lemma {:induction false} UncertainCancelsNoTask(s: State, n: nat, t: nat)
    requires n <= |s.attempts| && t < |s.tasks| && UncertainInflight(s, n).tasks[t].status.Cancelled?
    ensures s.tasks[t].status.Cancelled?
  {
    if n > 0 { UncertainCancelsNoTask(s, n - 1, t); }
  }

  lemma {:induction false} MaintenanceCancelsNoTask(s: State, step: Step)
    requires step.Maintenance?
    ensures CancelsNoTask(s, Apply(s, step))
  {
    var s1 := s.(settings := s.settings.(maintenance := step.enabled, dispatchDisabled := step.dispatchDisabled));
    forall t | 0 <= t < |s.tasks| && Apply(s, step).tasks[t].status.Cancelled? ensures s.tasks[t].status.Cancelled? {
      if step.enabled { UncertainCancelsNoTask(s1, |s1.attempts|, t); }
    }
  }

  lemma {:induction false} OthersKeepTasks(s: State, step: Step)
    requires step.AuthorizeDispatch? || step.MarkUncertain? || step.Release? || step.SettlePermit? || step.Checkpoint?
      || step.Command? || step.Dispatch? || step.ReplaceSource? || step.ContinueDraft? || step.Enqueue?
    ensures Apply(s, step).tasks == s.tasks
  {}

  lemma {:induction false} StepCancelsNoTask(s: State, step: Step)
    requires !step.Recover? && !step.Cleanup?
    ensures CancelsNoTask(s, Apply(s, step))
  {
    match step
    case Maintenance(_, _) => MaintenanceCancelsNoTask(s, step);
    case Retry(l, outcome, code, now, delay, repaired, finalized) =>
      if Issued(s, l) { RetryCancelsNoTask(s, l, outcome, code, now, delay, repaired, finalized); }
    case StopConnectionTest(_, _, _, _, _) => StopCancelsNoTask(s, step);
    case _ =>
      if step.RenewLease? || step.FinishTask? || step.Wait? || step.FailTask? { LeaseStepCancelsNoTask(s, step); }
      else if step.ClaimTask? || step.AddTask? || step.DeleteDocument? || step.Resolve? {
        NewRowsCancelNoTask(s, step);
      }
      else { OthersKeepTasks(s, step); SameTasksCancelNone(s, Apply(s, step)); }
  }

  lemma {:induction false} CleanupRetires(s: State, l: Lease, now: nat, t: nat)
    requires Linked(s) && Issued(s, l) && CleansUp(s, l, now)
    requires var r := Apply(s, Cleanup(l, now)); t < |r.tasks| && NewlyCancelled(s, r, t)
    ensures Retired(Apply(s, Cleanup(l, now)), t)
  {
    var d := s.jobs[l.job].document.value;
    ErasedTask(s, t, d, l.task);
    assert Linked(Erase(s, d, l.task)) by { EraseIsSteady(s, d, l.task); SteadyKeepsLinks(s, Erase(s, d, l.task)); }
  }

  lemma {:induction false} StepRetiresCancelled(s: State, step: Step)
    requires Orderly(s) && !step.Recover?
    ensures CancelledTasksRetired(Apply(s, step))
  {
    var r := Apply(s, step);
    forall t | 0 <= t < |r.tasks| && r.tasks[t].status.Cancelled? ensures Retired(r, t) {
      if !NewlyCancelled(s, r, t) { StepStaysRetired(s, step, t); }
      else if step.Cleanup? { CleanupRetires(s, step.lease, step.now, t); }
      else { StepCancelsNoTask(s, step); assert false; }
    }
  }

  lemma {:induction false} StepKeepsIdle(s: State, step: Step)
    requires Linked(s) && EpochsBound(s) && CancelledJobsIdle(s) && !step.Recover? && Linked(Apply(s, step))
    ensures CancelledJobsIdle(Apply(s, step))
  {
    if step.ClaimTask? { ClaimKeepsIdle(s, step.scene, step.seconds); }
    else {
      StepIsSteady(s, step);
      OnlyClaimsAddAttempts(s, step);
      StepCancelsCleanly(s, step);
      CleanCancelsKeepIdle(s, Apply(s, step));
    }
  }

  lemma {:induction false} StepKeepsOrderly(s: State, step: Step)
    requires Orderly(s) && InPlace(s, step)
    ensures Orderly(Apply(s, step))
  {
    if step.Recover? { RecoverOrderly(s, step.now, step.order); }
    else {
      StepKeepsKept(s, step);
      StepKeepsEpochs(s, step);
      StepKeepsIdle(s, step);
      StepRetiresCancelled(s, step);
    }
  }

  lemma {:induction false} OrderedRunsAreOrderly(settings: SettingsRow, steps: seq<Step>)
    requires OrderedRun(Initial(settings), steps)
    ensures Orderly(Run(Initial(settings), steps))
    decreases |steps|
  {
    if steps != [] {
      var n := |steps| - 1;
      OrderedRunsAreOrderly(settings, steps[..n]);
      OrderedRunsAreKept(settings, steps[..n]);
      AllowedIsInPlace(Run(Initial(settings), steps[..n]), Phases(Initial(settings), steps[..n]), steps[n]);
      StepKeepsOrderly(Run(Initial(settings), steps[..n]), steps[n]);
    }
  }

  /** A cancelled task is never claimed again, whatever follows. */
  lemma {:induction false} CancelledIsNeverClaimed(settings: SettingsRow, before: seq<Step>, after: seq<Step>, t: nat,
      scene: Scene, seconds: nat)
    requires OrderedRun(Initial(settings), before)
    requires t < |Run(Initial(settings), before).tasks| && Run(Initial(settings), before).tasks[t].status.Cancelled?
    ensures var r := Run(Run(Initial(settings), before), after);
      && t < |r.tasks| && !r.tasks[t].status.Pending? && !r.tasks[t].status.Leased?
      && (Claim(r, scene, seconds).Some? ==> Claim(r, scene, seconds).value.1.task != t)
  {
    OrderedRunsAreOrderly(settings, before);
    RetiredIsNeverClaimed(Run(Initial(settings), before), after, t, scene, seconds);
  }

  /** The report of a deleted document's request still books the money, and nothing else. */
  lemma {:induction false} LateReportKeepsMoneyOnly(s: State, l: Lease, outcome: Outcome, code: string, now: nat,
      delay: nat,
      repaired: Option<string>, finalized: Summary)
    requires Issued(s, l) && Tombstoned(s, s.jobs[l.job]) && Holds(s.attempts[l.attempt], PermitState.Reserved)
    ensures RetryOrStop(s, l, outcome, code, now, delay, repaired, finalized).Success?
    ensures var r := RetryOrStop(s, l, outcome, code, now, delay, repaired, finalized).value;
      && r == s.(attempts := s.attempts[l.attempt := r.attempts[l.attempt]])
      && (if outcome.NotSent? || outcome.NotExecuted? then Holds(r.attempts[l.attempt], PermitState.Released)
          else Holds(r.attempts[l.attempt], PermitState.Unknown))
  {}

  ghost predicate BothInFlight(a: AttemptRow, b: AttemptRow) {
    a.task == b.task && Holds(a, PermitState.Reserved) && Holds(b, PermitState.Reserved)
  }

  /** A request in flight sits on its task's newest attempt; the task is leased, has succeeded, or was
      cancelled by the cleanup of its deleted document. */
  ghost predicate OnNewestAttempt(r: State, a: nat)
    requires a < |r.attempts|
  {
    var t := r.attempts[a].task;
    && t < |r.tasks| && r.tasks[t].fence == r.attempts[a].fence && r.tasks[t].job < |r.jobs|
    && (r.tasks[t].status.Leased? || r.tasks[t].status.Succeeded?
        || (r.tasks[t].status.Cancelled? && Tombstoned(r, r.jobs[r.tasks[t].job])))
  }

  /** Requests in flight are on their task's newest attempt, and no task has two. */
  ghost predicate OneFlightEach(r: State) {
    && (forall a :: 0 <= a < |r.attempts| && Holds(r.attempts[a], PermitState.Reserved) ==> OnNewestAttempt(r, a))
    && (forall a, b :: 0 <= a < |r.attempts| && 0 <= b < |r.attempts| && BothInFlight(r.attempts[a], r.attempts[b]) ==>
      a == b)
  }

  ghost predicate PermitsWithinAttempts(r: State) {
    forall t :: 0 <= t < |r.tasks| ==> PermitsIssued(r.attempts, t) <= r.tasks[t].attempts
  }

  lemma {:induction false} OrderlyInFlight(r: State)
    requires Orderly(r)
    ensures OneFlightEach(r)
  {
    forall a | 0 <= a < |r.attempts| && Holds(r.attempts[a], PermitState.Reserved) ensures OnNewestAttempt(r, a) {
      assert FlightKept(r, a);
      assert r.tasks[r.attempts[a].task].status.Cancelled? ==> Retired(r, r.attempts[a].task);
    }
    forall a, b | 0 <= a < |r.attempts| && 0 <= b < |r.attempts| && BothInFlight(r.attempts[a], r.attempts[b])
      ensures a == b
    {
      assert FlightKept(r, a);
      OnlyCurrentInFlight(r, r.attempts[a].task, a);
    }
  }

  lemma {:induction false} KeptPermits(r: State)
    requires Kept(r)
    ensures PermitsWithinAttempts(r)
  {
    forall t | 0 <= t < |r.tasks| ensures PermitsIssued(r.attempts, t) <= r.tasks[t].attempts {
      assert AllowanceCovers(r, t);
    }
  }

  /** No cleanup of the run meets another unfinished task of its document with a request in flight. */
  ghost predicate CleanupsWait(s: State, steps: seq<Step>)
    decreases |steps|
  {
    steps == [] || (CleanupsWait(s, steps[..|steps| - 1])
      && Undisturbed(Run(s, steps[..|steps| - 1]), steps[|steps| - 1]))
  }

  lemma {:induction false} OrderedRunsAreSound(settings: SettingsRow, steps: seq<Step>)
    requires OrderedRun(Initial(settings), steps)
    ensures SoundRun(Initial(settings), steps) <==> CleanupsWait(Initial(settings), steps)
    decreases |steps|
  {
    if steps != [] {
      var n := |steps| - 1;
      OrderedRunsAreSound(settings, steps[..n]);
      OrderedRunsAreKept(settings, steps[..n]);
      AllowedIsInPlace(Run(Initial(settings), steps[..n]), Phases(Initial(settings), steps[..n]), steps[n]);
    }
  }

  lemma {:induction false} ReachableInFlight(settings: SettingsRow, steps: seq<Step>)
    requires OrderedRun(Initial(settings), steps)
    ensures OneFlightEach(Run(Initial(settings), steps)) && PermitsWithinAttempts(Run(Initial(settings), steps))
  {
    OrderedRunsAreOrderly(settings, steps);
    OrderlyInFlight(Run(Initial(settings), steps));
    KeptPermits(Run(Initial(settings), steps));
  }

  lemma {:induction false} OnlyCleanupStrands(settings: SettingsRow, steps: seq<Step>)
    requires OrderedRun(Initial(settings), steps)
    ensures SafeThroughout(Initial(settings), steps) <==> CleanupsWait(Initial(settings), steps)
  {
    RunsAreSafe(Initial(settings), steps);
    OrderedRunsAreSound(settings, steps);
  }

  /** However transactions interleave, as long as each executor keeps its own order: requests in flight
      sit on their task's newest attempt, one per task, permits never exceed attempts, and a request in
      flight is left on a cancelled task if and only if some cleanup did not wait for it. */
  lemma {:induction false} ReachableStatesAreSafe(settings: SettingsRow, steps: seq<Step>)
    requires OrderedRun(Initial(settings), steps)
    ensures OneFlightEach(Run(Initial(settings), steps)) && PermitsWithinAttempts(Run(Initial(settings), steps))
    ensures SafeThroughout(Initial(settings), steps) <==> CleanupsWait(Initial(settings), steps)
  {
    ReachableInFlight(settings, steps);
    OnlyCleanupStrands(settings, steps);
  }
}
