/** What the commands of the user and of maintenance achieve, and when they are refused. */
module Commands {
  import opened Wrappers
  import opened Rows
  import opened Queue
  import opened Control
  import opened Deletion

  /** Nothing but job `j` changes. */
  ghost predicate OnlyJob(s: State, r: State, j: nat) {
    j < |s.jobs| == |r.jobs| && r == s.(jobs := s.jobs[j := r.jobs[j]])
  }

  /** What any command of a job needs. */
  ghost predicate Commandable(s: State, j: nat) {
    && j < |s.jobs| && !s.settings.maintenance && !Tombstoned(s, s.jobs[j]) && !Terminal(s.jobs[j].status)
    && (s.jobs[j].status.Running? ==>
          s.jobs[j].stage != "prepare_parser_model" && s.jobs[j].stage != "prepare_local_model")
  }

  /** A job can be stopped exactly when it is live, unfinished and not preparing a model; it can be resumed
      exactly when it is waiting, its source is current and no charge of it is uncertain. */
  lemma {:induction false} CommandIsExact(s: State, j: nat)
    requires j < |s.jobs|
    ensures ControlJob(s, j, Action.Pause).Success? <==> Commandable(s, j)
    ensures ControlJob(s, j, Action.Cancel).Success? <==> Commandable(s, j)
    ensures ControlJob(s, j, Action.Resume).Success? <==>
      && Commandable(s, j) && !s.jobs[j].superseded
      && (s.jobs[j].status.Paused? || s.jobs[j].status.WaitingConfig? || s.jobs[j].status.WaitingBudget?)
      && forall a :: 0 <= a < |s.attempts| && s.attempts[a].job == j ==> !Holds(s.attempts[a], PermitState.Unknown)
  {}

  /** The finished states no command touches. */
  lemma {:induction false} FinishedStates(status: JobStatus)
    ensures Terminal(status) <==>
      || status.Failed? || status.Cancelled? || status == JobStatus.Ended("succeeded")
      || status == JobStatus.Ended("completed") || status == JobStatus.Ended("completed_with_warnings")
      || status == JobStatus.Ended("partially_completed")
  {}

  /** Pausing and resuming brings the job back to the queue as it was, in a new epoch. */
  lemma {:induction false} PausedIsResumed(s: State, j: nat)
    requires j < |s.jobs| && ControlJob(s, j, Action.Pause).Success? && !s.jobs[j].superseded && !HasUnknownPermit(s, j)
    ensures var m := ControlJob(s, j, Action.Pause).value;
      && OnlyJob(s, m, j) && m.jobs[j].status.Paused?
      && ControlJob(m, j, Action.Resume) ==
           Success(s.(jobs := s.jobs[j := s.jobs[j].(status := JobStatus.Pending, epoch := s.jobs[j].epoch + 1)]))
  {
    var m := ControlJob(s, j, Action.Pause).value;
    var back := s.jobs[j].(status := JobStatus.Pending, epoch := s.jobs[j].epoch + 1);
    assert m.jobs[j := back] == s.jobs[j := back];
    assert HasUnknownPermit(m, j) == HasUnknownPermit(s, j);
    assert ControlError(m, j, Action.Resume) == "";
  }

  /** A cancelled job takes no further command. */
  lemma {:induction false} CancelIsFinal(s: State, j: nat, action: Action)
    requires j < |s.jobs| && ControlJob(s, j, Action.Cancel).Success?
    ensures var m := ControlJob(s, j, Action.Cancel).value;
      && OnlyJob(s, m, j) && m.jobs[j].status.Cancelled? && ControlJob(m, j, action) == Failure("JOB_TERMINAL")
  {}

  /** A risk-accepted retry is possible exactly for an uncertain attempt of a live, current, confirmed job of
      unknown outcome, with the duplicate charge confirmed, attempts left, and a positive budget under cost
      control; it puts unit and job back with exactly that budget and leaves the old charge. */
  lemma {:induction false} AcceptedRetry(s: State, a: nat, budget: Option<int>, risk: bool)
    requires a < |s.attempts| && s.attempts[a].job < |s.jobs| && s.attempts[a].task < |s.tasks|
    ensures var j, t := s.attempts[a].job, s.attempts[a].task;
      var job, task := s.jobs[j], s.tasks[t];
      var r := ResolveAttempt(s, a, Decision.RetryAcceptRisk, budget, risk);
      && (r.Success? <==>
           && !s.settings.maintenance && !Tombstoned(s, job) && s.attempts[a].state.OutcomeUnknown? && !job.superseded
           && risk && (job.profile.controlled ==> budget.Some? && budget.value > 0) && job.confirmed
           && job.status.OutcomeUnknown? && task.status.OutcomeUnknown? && task.attempts < 3)
      && (r.Success? ==>
           r.value == s.(
             tasks := s.tasks[t := task.(status := TaskStatus.Pending)],
             jobs := s.jobs[j := job.(status := JobStatus.Pending,
               budget := if job.profile.controlled then budget else None)]))
  {}

  /** Recording evidence changes no unit and no charge; stopping cancels the job for good. */
  lemma {:induction false} AcceptedStop(s: State, a: nat, decision: Decision, budget: Option<int>, risk: bool)
    requires a < |s.attempts| && s.attempts[a].job < |s.jobs| && s.attempts[a].task < |s.tasks|
    requires !decision.RetryAcceptRisk?
    ensures var j := s.attempts[a].job;
      var r := ResolveAttempt(s, a, decision, budget, risk);
      && (r.Success? <==> !s.settings.maintenance && !Tombstoned(s, s.jobs[j]) && s.attempts[a].state.OutcomeUnknown?)
      && (r.Success? && decision.RecordEvidence? ==> r.value == s)
      && (r.Success? && decision.Stop? ==>
           OnlyJob(s, r.value, j) && r.value.jobs[j].status.Cancelled? && r.value.jobs[j].epoch == s.jobs[j].epoch + 1)
  {}

  /** During maintenance nothing is claimed, checked, renewed, recovered or commanded; leaving it brings no
      request back. */
  lemma {:induction false} MaintenanceStops(s: State, disabled: bool, scene: Scene, seconds: nat, now: nat,
    order: seq<nat>)
    ensures var r := SetMaintenance(s, true, disabled);
      && r.settings == s.settings.(maintenance := true, dispatchDisabled := disabled)
      && Claim(r, scene, seconds).None? && RecoverExpired(r, now, order) == r
      && (forall l, memo, allowed :: Issued(r, l) ==>
        CurrentError(r, l, now, memo, allowed) == "MAINTENANCE" && !CanRenew(r, l, now))
      && (forall j, action :: 0 <= j < |r.jobs| ==> ControlJob(r, j, action) == Failure("MAINTENANCE"))
      && SetMaintenance(r, false, disabled) == r.(settings := r.settings.(maintenance := false))
  {
    var s1 := s.(settings := s.settings.(maintenance := true, dispatchDisabled := disabled));
    UncertainSettings(s1, |s1.attempts|);
    var r := SetMaintenance(s, true, disabled);
    forall l, memo, allowed | Issued(r, l)
      ensures CurrentError(r, l, now, memo, allowed) == "MAINTENANCE" && !CanRenew(r, l, now)
    {}
  }

  lemma {:induction false} UncertainSettings(s: State, n: nat)
    requires n <= |s.attempts|
    ensures UncertainInflight(s, n).settings == s.settings && UncertainInflight(s, n).deleted == s.deleted
  {
    if n > 0 { UncertainSettings(s, n - 1); }
  }

  /** Deletion, once and outside maintenance: every job of the document gets a new epoch and ends unless it
      had ended, all other jobs stay, and a cleanup of its own is queued last. */
  lemma {:induction false} DeletedJobs(s: State, d: nat, now: nat)
    ensures Deletion.DeleteDocument(s, d, now).Success? <==> !s.settings.maintenance && d !in s.deleted
    ensures Deletion.DeleteDocument(s, d, now).Success? ==>
      (var r, n := Deletion.DeleteDocument(s, d, now).value, |s.jobs|;
       && |r.jobs| == n + 1 && |r.tasks| == |s.tasks| + 1 && r.tasks[..|s.tasks|] == s.tasks
       && r.attempts == s.attempts && r.settings == s.settings && r.deleted == s.deleted + {d}
       && (forall j :: 0 <= j < n && s.jobs[j].document != Some(d) ==> r.jobs[j] == s.jobs[j])
       && (forall j :: 0 <= j < n && s.jobs[j].document == Some(d) ==>
            r.jobs[j] == s.jobs[j].(epoch := s.jobs[j].epoch + 1, status := r.jobs[j].status)
            && r.jobs[j].status == (if Terminal(s.jobs[j].status) then s.jobs[j].status else JobStatus.Cancelled))
       && r.jobs[n].status.Pending? && r.jobs[n].stage == "cleanup" && r.jobs[n].document == Some(d)
       && r.jobs[n].createdAt == now
       && r.tasks[|s.tasks|].job == n && r.tasks[|s.tasks|].kind == "cleanup" && r.tasks[|s.tasks|].status.Pending?
       && Due(r, |s.tasks|, n, now))
  {}

  /** Cleanup leaves no job of the document able to send anything and no unit with work to take up, cancels
      every other unfinished unit, and touches no other document and no permit. */
  lemma {:induction false} CleanedUp(s: State, l: Lease, now: nat)
    requires Issued(s, l) && s.tasks[l.task].job == l.job && CleanupDocument(s, l, now).Success?
    ensures var r, d := CleanupDocument(s, l, now).value, s.jobs[l.job].document;
      && d.Some? && d.value in s.deleted && |r.jobs| == |s.jobs| && |r.tasks| == |s.tasks|
      && |r.attempts| == |s.attempts|
      && (forall j :: 0 <= j < |s.jobs| && s.jobs[j].document != d ==> r.jobs[j] == s.jobs[j])
      && (forall j :: 0 <= j < |s.jobs| && s.jobs[j].document == d ==>
        && !r.jobs[j].confirmed && !r.jobs[j].localPreparation && !r.jobs[j].savedRevision
        && r.jobs[j].profile == Profile(None, true) && r.jobs[j].analysis == Profile(None, true))
      && (forall t :: 0 <= t < |s.tasks| ==> Cleaned(s, r, t, d, l.task))
      && (forall a :: 0 <= a < |s.attempts| ==> r.attempts[a].permit == s.attempts[a].permit)
  {}

  ghost predicate Cleaned(s: State, r: State, t: nat, d: Option<nat>, keep: nat)
    requires t < |s.tasks| == |r.tasks|
  {
    var task := s.tasks[t];
    if task.job >= |s.jobs| || s.jobs[task.job].document != d then r.tasks[t] == task
    else
      && r.tasks[t].work.None? && !r.tasks[t].preparation && r.tasks[t].fence == task.fence
      && r.tasks[t].attempts == task.attempts
      && r.tasks[t].status == (if t == keep || task.status.Succeeded? then TaskStatus.Succeeded
                               else if task.status.Failed? then TaskStatus.Failed else TaskStatus.Cancelled)
  }

  /** A new source makes unfinished work stale for good: no resume and no accepted risk revives it. */
  lemma {:induction false} ReplacedJobs(s: State, d: nat, j: nat)
    requires j < |s.jobs| && Deletion.ReplaceSource(s, d).Success?
    ensures var r, job := Deletion.ReplaceSource(s, d).value, s.jobs[j];
      var working := job.stage != "export" && job.stage != "index" && job.stage != "cleanup";
      var stale := job.document == Some(d) && !Terminal(job.status) && working;
      && |r.jobs| == |s.jobs| && r == s.(jobs := r.jobs) && (!stale ==> r.jobs[j] == job)
      && (stale ==>
           && r.jobs[j].superseded && r.jobs[j].epoch == job.epoch + 1
           && r.jobs[j].status == (if job.status.OutcomeUnknown? then job.status else JobStatus.Cancelled)
           && ControlJob(r, j, Action.Resume).Failure?
           && forall a, budget, risk ::
             0 <= a < |r.attempts| && r.attempts[a].job == j && r.attempts[a].task < |r.tasks| ==>
                ResolveAttempt(r, a, Decision.RetryAcceptRisk, budget, risk).Failure?)
  {}

  /** Continuing a draft is refused while an earlier job of it is deleted, active, or has a request in flight
      or of unknown outcome, or dispatch is off; it ends the jobs that were only waiting. */
  lemma {:induction false} ContinuedDraft(s: State, previous: set<nat>)
    ensures Deletion.ContinueDraft(s, previous).Success? <==>
      && !s.settings.maintenance && !s.settings.dispatchDisabled
      && (forall j :: 0 <= j < |s.jobs| && j in previous ==> !Tombstoned(s, s.jobs[j]) && !Active(s.jobs[j].status))
      && (forall a :: 0 <= a < |s.attempts| && s.attempts[a].job in previous ==>
           !Holds(s.attempts[a], PermitState.Unknown) && !Holds(s.attempts[a], PermitState.Reserved))
      && (forall t :: 0 <= t < |s.tasks| && s.tasks[t].job in previous ==> !s.tasks[t].status.Leased?)
    ensures Deletion.ContinueDraft(s, previous).Success? ==>
      (var r := Deletion.ContinueDraft(s, previous).value;
       && |r.jobs| == |s.jobs| && r == s.(jobs := r.jobs)
       && forall j :: 0 <= j < |s.jobs| ==>
            r.jobs[j] == if j in previous && (s.jobs[j].status.WaitingConfig? || s.jobs[j].status.WaitingBudget?)
                         then s.jobs[j].(epoch := s.jobs[j].epoch + 1, status := JobStatus.Cancelled) else s.jobs[j])
  {}
}
