/** Commands of the user and of maintenance (src/apps/api/workflow.py, src/packages/maintenance/__main__.py). */
module Control {
  import opened Wrappers
  import opened Rows

  datatype Action = Pause | Resume | Cancel

  datatype Decision = RecordEvidence | RetryAcceptRisk | Stop

  predicate HasUnknownPermit(s: State, j: nat) {
    exists a :: 0 <= a < |s.attempts| && s.attempts[a].job == j && Holds(s.attempts[a], PermitState.Unknown)
  }

  function ControlError(s: State, j: nat, action: Action): string
    requires j < |s.jobs|
  {
    var job := s.jobs[j];
    if s.settings.maintenance then "MAINTENANCE"
    else if Tombstoned(s, job) then "DOCUMENT_DELETED"
    else if Terminal(job.status) then "JOB_TERMINAL"
    else if job.stage in {"prepare_parser_model", "prepare_local_model"} && job.status.Running? then
      "MODEL_PREPARATION_IN_PROGRESS"
    else if action.Resume? && job.superseded then "SOURCE_STALE"
    else if action.Resume? && !(job.status.Paused? || job.status.WaitingConfig? || job.status.WaitingBudget?) then
      "JOB_NOT_RESUMABLE"
    else if action.Resume? && HasUnknownPermit(s, j) then "OUTCOME_UNKNOWN"
    else ""
  }

  function ControlJob(s: State, j: nat, action: Action): Result<State, string>
    requires j < |s.jobs|
  {
    var job := s.jobs[j];
    var code := ControlError(s, j, action);
    if code != "" then Failure(code)
    else if action.Resume? then Success(PutJob(s, j, job.(status := JobStatus.Pending)))
    else
      var status := if action.Pause? then JobStatus.Paused else JobStatus.Cancelled;
      Success(PutJob(s, j, job.(epoch := job.epoch + 1, status := status)))
  }

  function ResolveError(s: State, a: nat, decision: Decision, budget: Option<int>, riskConfirmed: bool): string
    requires a < |s.attempts| && s.attempts[a].job < |s.jobs| && s.attempts[a].task < |s.tasks|
  {
    var row := s.attempts[a];
    var job, task := s.jobs[row.job], s.tasks[row.task];
    if s.settings.maintenance then "MAINTENANCE"
    else if Tombstoned(s, job) then "DOCUMENT_DELETED"
    else if !row.state.OutcomeUnknown? then "ATTEMPT_NOT_UNKNOWN"
    else if !decision.RetryAcceptRisk? then ""
    else if job.superseded then "SOURCE_STALE"
    else if !riskConfirmed || (job.profile.controlled && budget.None?) then "DUPLICATE_CHARGE_CONFIRMATION_REQUIRED"
    else if !job.confirmed then "EXTERNAL_PROCESSING_UNCONFIRMED"
    else if !job.status.OutcomeUnknown? then "JOB_NOT_RESUMABLE"
    else if task.attempts >= 3 || !task.status.OutcomeUnknown? then "ATTEMPT_LIMIT"
    else if job.profile.controlled && budget.value <= 0 then "BUDGET_REQUIRED"
    else ""
  }

  function ResolveAttempt(s: State, a: nat, decision: Decision, budget: Option<int>,
      riskConfirmed: bool): Result<State, string>
    requires a < |s.attempts| && s.attempts[a].job < |s.jobs| && s.attempts[a].task < |s.tasks|
  {
    var row := s.attempts[a];
    var job := s.jobs[row.job];
    var code := ResolveError(s, a, decision, budget, riskConfirmed);
    if code != "" then Failure(code)
    else
      match decision
      case RecordEvidence => Success(s)
      case Stop => Success(PutJob(s, row.job, job.(status := JobStatus.Cancelled, epoch := job.epoch + 1)))
      case RetryAcceptRisk =>
        var s1 := PutStatus(s, row.task, row.job, TaskStatus.Pending, JobStatus.Pending);
        Success(PutJob(s1, row.job, s1.jobs[row.job].(budget := if job.profile.controlled then budget else None)))
  }

  /** Maintenance declares one request uncertain. */
  function UncertainOne(s: State, a: nat): State
    requires a < |s.attempts|
  {
    var row := s.attempts[a];
    if !Holds(row, PermitState.Reserved) || row.task >= |s.tasks| || row.job >= |s.jobs| then s
    else
      var s1 := PutAttempt(s, a, SetPermit(row, PermitState.Unknown).(state := AttemptState.OutcomeUnknown));
      var s2 := PutStatus(s1, row.task, row.job, TaskStatus.OutcomeUnknown, JobStatus.OutcomeUnknown);
      PutJob(s2, row.job, s2.jobs[row.job].(epoch := s2.jobs[row.job].epoch + 1))
  }

  /** Every request in flight among the first `n` attempts becomes uncertain. */
  function UncertainInflight(s: State, n: nat): (r: State)
    requires n <= |s.attempts|
    ensures |r.attempts| == |s.attempts| && |r.tasks| == |s.tasks| && |r.jobs| == |s.jobs|
  {
    if n == 0 then s else UncertainOne(UncertainInflight(s, n - 1), n - 1)
  }

  function SetMaintenance(s: State, enabled: bool, dispatchDisabled: bool): State {
    var s1 := s.(settings := s.settings.(maintenance := enabled, dispatchDisabled := dispatchDisabled));
    if enabled then UncertainInflight(s1, |s1.attempts|) else s1
  }
}
