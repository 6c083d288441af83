/** Transactions that reach every job of a document: deletion and its cleanup, a new source file
    and the continuation of a draft (src/apps/api/library.py, src/apps/api/continuation.py,
    src/packages/privacy/__init__.py). */
module Deletion {
  import opened Wrappers
  import opened Rows
  import opened Queue

  function NewJob(s: State, job: JobRow): State {
    s.(jobs := s.jobs + [job.(epoch := 0)])
  }

  function NewTask(s: State, task: TaskRow): State {
    s.(tasks := s.tasks + [task.(status := TaskStatus.Pending, fence := 0, attempts := 0)])
  }

  /** Every earlier lease of the job is overtaken; a job that is not finished is cancelled. */
  function TombstoneJob(job: JobRow, d: nat): JobRow {
    if job.document != Some(d) then job
    else job.(epoch := job.epoch + 1, status := if Terminal(job.status) then job.status else JobStatus.Cancelled)
  }

  function Tombstone(s: State, d: nat): State {
    s.(jobs := seq(|s.jobs|, j requires 0 <= j < |s.jobs| => TombstoneJob(s.jobs[j], d)), deleted := s.deleted + {d})
  }

  /** What an absent profile means: no price, and cost control on. */
  const ERASED := Profile(None, true)

  function CleanupJob(d: nat, now: nat): JobRow {
    JobRow(JobStatus.Pending, 0, "cleanup", "", now, ERASED, ERASED, false, false, false, None, false, Some(d))
  }

  function CleanupTask(j: nat, now: nat): TaskRow {
    TaskRow(j, "cleanup", TaskStatus.Pending, 0, 0, 0, now, now, false, 0, None)
  }

  /** Deletion hides the document at once and leaves its content to a cleanup job. */
  function DeleteDocument(s: State, d: nat, now: nat): Result<State, string> {
    if s.settings.maintenance then Failure("MAINTENANCE")
    else if d in s.deleted then Failure("DOCUMENT_DELETED")
    else
      var s1 := Tombstone(s, d);
      Success(s1.(jobs := s1.jobs + [CleanupJob(d, now)], tasks := s1.tasks + [CleanupTask(|s1.jobs|, now)]))
  }

  function EraseJob(job: JobRow, d: nat): JobRow {
    if job.document != Some(d) then job
    else
      job.(profile := ERASED, analysis := ERASED, localPreparation := false, savedRevision := false, confirmed := false)
  }

  /** Payloads go; a task that is neither done nor running this cleanup is cancelled, whatever its permit. */
  function EraseTask(s: State, t: nat, d: nat, keep: nat): TaskRow
    requires t < |s.tasks|
  {
    var task := s.tasks[t];
    if task.job >= |s.jobs| || s.jobs[task.job].document != Some(d) then task
    else
      var open := t != keep && !task.status.Succeeded? && !task.status.Failed?;
      task.(preparation := false, repairs := 0, work := None, status := if open then TaskStatus.Cancelled
        else task.status)
  }

  function Erase(s: State, d: nat, keep: nat): State {
    s.(jobs := seq(|s.jobs|, j requires 0 <= j < |s.jobs| => EraseJob(s.jobs[j], d)),
       tasks := seq(|s.tasks|, t requires 0 <= t < |s.tasks| => EraseTask(s, t, d, keep)))
  }

  function CleanupDocument(s: State, l: Lease, now: nat): Result<State, string>
    requires Issued(s, l)
  {
    var code := CurrentError(s, l, now, {}, RUNNING);
    var job := s.jobs[l.job];
    if code != "" then Failure(code)
    else if !Tombstoned(s, job) then Failure("TOMBSTONE_REQUIRED")
    else Queue.Finish(Erase(s, job.document.value, l.task), l, now, {l}, JobStatus.Ended("succeeded"))
  }

  /** A new source file makes the unfinished work of the document stale. */
  function ReplaceJob(job: JobRow, d: nat): JobRow {
    if job.document != Some(d) || job.stage in {"export", "index", "cleanup"} || Terminal(job.status) then job
    else job.(epoch := job.epoch + 1, superseded := true,
              status := if job.status.OutcomeUnknown? then job.status else JobStatus.Cancelled)
  }

  function ReplaceSource(s: State, d: nat): Result<State, string> {
    if s.settings.maintenance then Failure("MAINTENANCE")
    else if d in s.deleted then Failure("DOCUMENT_DELETED")
    else Success(s.(jobs := seq(|s.jobs|, j requires 0 <= j < |s.jobs| => ReplaceJob(s.jobs[j], d))))
  }

  function ContinueJob(job: JobRow, chosen: bool): JobRow {
    if chosen && (job.status.WaitingConfig? || job.status.WaitingBudget?)
    then job.(epoch := job.epoch + 1, status := JobStatus.Cancelled) else job
  }

  predicate HasPermit(s: State, jobs: set<nat>, state: PermitState) {
    exists a :: 0 <= a < |s.attempts| && s.attempts[a].job in jobs && Holds(s.attempts[a], state)
  }

  predicate Active(status: JobStatus) {
    status.Pending? || status.Running? || status.Paused? || status.OutcomeUnknown?
  }

  /** `previous` are the jobs of the continued draft's source and language: new history
      must not evade a request that is in flight or of unknown outcome. */
  function ContinueDraft(s: State, previous: set<nat>): Result<State, string> {
    if s.settings.maintenance then Failure("MAINTENANCE")
    else if exists j :: 0 <= j < |s.jobs| && j in previous && Tombstoned(s, s.jobs[j]) then Failure("DOCUMENT_DELETED")
    else if HasPermit(s, previous, PermitState.Unknown) then Failure("OUTCOME_UNKNOWN")
    else if HasPermit(s, previous, PermitState.Reserved) then Failure("REQUEST_IN_FLIGHT")
    else if exists j :: 0 <= j < |s.jobs| && j in previous && Active(s.jobs[j].status) then Failure("JOB_ACTIVE")
    else if exists t :: 0 <= t < |s.tasks| && s.tasks[t].job in previous && s.tasks[t].status.Leased? then
      Failure("JOB_ACTIVE")
    else if s.settings.dispatchDisabled then Failure("DISPATCH_DISABLED")
    else Success(s.(jobs := seq(|s.jobs|, j requires 0 <= j < |s.jobs| => ContinueJob(s.jobs[j], j in previous))))
  }
}
