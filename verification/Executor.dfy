/** Transactions of the worker that runs a leased task (src/workers/main.py,
    src/packages/translation/execution.py, src/packages/providers/connection.py). */
module Executor {
  import opened Wrappers
  import opened Rows
  import opened Queue
  import opened Ledger

  /** How a provider call ended, as far as the client can tell. */
  datatype Outcome = NotSent | NotExecuted | ExecutedInvalid | Unknown

  /** The failure branch of `execute`. */
  function FailExecution(s: State, l: Lease, code: string): State
    requires Issued(s, l)
  {
    var task, job, a := s.tasks[l.task], s.jobs[l.job], s.attempts[l.attempt];
    if task.fence != l.fence || !task.status.Leased? || job.epoch != l.epoch then s
    else if Uncertain(s, Some(l.attempt)) then
      var s1 := PutAttempt(s, l.attempt, SetPermit(a, PermitState.Unknown).(state := AttemptState.OutcomeUnknown));
      var s2 := PutStatus(s1, l.task, l.job, TaskStatus.OutcomeUnknown, JobStatus.OutcomeUnknown);
      PutJob(s2, l.job, s2.jobs[l.job].(error := code))
    else if code == "CONTROL_CHANGED" && YieldsTo(job.status) then
      if a.permit.None? then
        var attempts := if task.attempts == 0 then 0 else task.attempts - 1;
        PutAttempt(PutTask(s, l.task, task.(status := TaskStatus.Pending, attempts := attempts)), l.attempt,
          a.(state := AttemptState.NotExecuted))
      else PutTask(s, l.task, task.(status := TaskStatus.Pending))
    else
      var s1 := PutAttempt(s, l.attempt, if a.state.Created? then a.(state := AttemptState.KnownFailed) else a);
      var s2 := PutStatus(s1, l.task, l.job, TaskStatus.Failed, JobStatus.Failed);
      PutJob(s2, l.job, s2.jobs[l.job].(error := code))
  }

  /** Job states a sibling may have chosen that are no failure of this task. */
  predicate YieldsTo(status: JobStatus) {
    status.Pending? || status.Paused? || status.WaitingConfig? || status.WaitingBudget? || status.OutcomeUnknown?
  }

  /** Give the lease back before anything was sent. The caller never looks at the permit:
      every call in the source precedes a committed authorization. */
  function WaitWithoutDispatch(s: State, l: Lease, now: nat, memo: set<Lease>, code: string): Result<State, string>
    requires Issued(s, l)
  {
    var current := CurrentError(s, l, now, memo, RUNNING);
    if current != "" then Failure(current)
    else
      var task := s.tasks[l.task];
      var attempts := if task.attempts == 0 then 0 else task.attempts - 1;
      var status := if code == "INSTANCE_CONCURRENCY_LIMIT" then JobStatus.Pending
                    else if code == "BUDGET_PAUSED" then JobStatus.WaitingBudget else JobStatus.WaitingConfig;
      var s1 := PutTask(s, l.task, task.(status := TaskStatus.Pending, availableAt := now + 2, attempts := attempts));
      var s2 := PutAttempt(s1, l.attempt, s.attempts[l.attempt].(state := AttemptState.NotExecuted));
      Success(PutJob(s2, l.job, s2.jobs[l.job].(status := status, error := code)))
  }

  /** An invalid answer without usage evidence counts as unknown. */
  function EffectiveOutcome(s: State, a: nat, outcome: Outcome): Outcome
    requires a < |s.attempts|
  {
    if outcome.ExecutedInvalid? && Holds(s.attempts[a], PermitState.Reserved) then Outcome.Unknown else outcome
  }

  /** The money part of a provider failure, done whatever became of the lease. */
  function Classify(s: State, a: nat, outcome: Outcome): Result<State, string>
    requires a < |s.attempts|
  {
    match outcome
    case NotSent => if s.attempts[a].permit.Some? then ReleaseUnsent(s, a) else Success(s)
    case NotExecuted => if s.attempts[a].permit.Some? then ReleaseUnsent(s, a) else Success(s)
    case Unknown => MarkUnknown(s, a)
    case ExecutedInvalid => Success(s)
  }

  /** What a provider failure does to its task, once the money is classified. */
  function RetryTask(task: TaskRow, outcome: Outcome, code: string, now: nat, delay: nat,
      repaired: Option<string>): TaskRow {
    if outcome.Unknown? then task.(status := TaskStatus.OutcomeUnknown)
    else if code in {"PROVIDER_CONFIG", "PROVIDER_UNSUPPORTED_RESPONSE", "PROVIDER_REFUSAL", "UNIT_TOO_LARGE"} then
      task.(status := TaskStatus.Failed)
    else if (outcome.NotSent? || outcome.NotExecuted?) && task.attempts < 3 then
      task.(status := TaskStatus.Pending, availableAt := now + delay)
    else if outcome.ExecutedInvalid? && task.repairs < 1 && task.attempts < 3 then
      task.(status := TaskStatus.Pending, availableAt := now + 2, repairs := task.repairs + 1, work := repaired)
    else task.(status := TaskStatus.Failed)
  }

  /** What a summary may leave the job in. */
  type Summary = status: JobStatus | !status.Cancelled? && !status.CancelRequested? witness JobStatus.Failed

  /** `finalized` is the job state the translation or review summary computes when its last unit failed. */
  function RetryJob(task: TaskRow, outcome: Outcome, code: string, finalized: Summary): JobStatus {
    if outcome.Unknown? then JobStatus.OutcomeUnknown
    else if code in {"PROVIDER_CONFIG", "PROVIDER_UNSUPPORTED_RESPONSE"} then JobStatus.WaitingConfig
    else if task.status.Failed? && task.preparation then JobStatus.Failed
    else if task.status.Failed? && task.kind in {"translate", "candidate", "semantic_review"} then finalized
    else JobStatus.Pending
  }

  function RetryOrStop(s: State, l: Lease, outcome: Outcome, code: string, now: nat, delay: nat,
      repaired: Option<string>, finalized: Summary): Result<State, string>
    requires Issued(s, l)
  {
    var outcome := EffectiveOutcome(s, l.attempt, outcome);
    var classified := Classify(s, l.attempt, outcome);
    if classified.Failure? then classified
    else
      var s1 := classified.value;
      var task, job, a := s1.tasks[l.task], s1.jobs[l.job], s1.attempts[l.attempt];
      if Tombstoned(s, job) || task.fence != l.fence || job.epoch != l.epoch then Success(s1)
      else
        var row := RetryTask(task, outcome, code, now, delay, repaired);
        var s2 := PutAttempt(PutTask(s1, l.task, row), l.attempt,
          if a.state.Created? then a.(state := AttemptState.Failed) else a);
        Success(PutJob(s2, l.job, job.(status := RetryJob(row, outcome, code, finalized), error := code)))
  }

  function ClassifyTest(s: State, a: nat, outcome: Option<Outcome>): Result<State, string>
    requires a < |s.attempts|
  {
    if outcome.None? || outcome.value.ExecutedInvalid? then Success(s)
    else if outcome.value.Unknown? then MarkUnknown(s, a) else ReleaseUnsent(s, a)
  }

  /** `stop` of a connection test. Outcomes other than unknown, not sent and not executed leave
      the permit as it is, and so does a stop without an outcome. */
  function StopTest(s: State, l: Lease, now: nat, memo: set<Lease>, code: string,
      outcome: Option<Outcome>): Result<State, string>
    requires Issued(s, l)
  {
    var classified := ClassifyTest(s, l.attempt, outcome);
    if classified.Failure? then classified
    else
      var s1 := classified.value;
      var current := CurrentError(s1, l, now, memo, RUNNING);
      if current == "CONTROL_CHANGED" || current == "FENCE_EXPIRED" then Success(s1)
      else if current != "" then Failure(current)
      else
        var unknown := outcome == Some(Outcome.Unknown);
        var s2 := PutStatus(s1, l.task, l.job, if unknown then TaskStatus.OutcomeUnknown else TaskStatus.Failed,
                            if unknown then JobStatus.OutcomeUnknown else JobStatus.Failed);
        Success(PutJob(s2, l.job, s2.jobs[l.job].(error := code)))
  }

  /** A validated answer, kept with its attempt so that it is never paid for twice. */
  function RecordCheckpoint(s: State, a: nat, work: string): State
    requires a < |s.attempts|
  {
    PutAttempt(s, a, s.attempts[a].(validated := s.attempts[a].validated + {work}))
  }
}
