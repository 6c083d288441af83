/** The control tables of src/packages/domain/models.py as one value.
    Rows are only ever added, so an identifier is the row's position in its table.
    A permit belongs to exactly one attempt (unique foreign key) and is kept in that attempt's row. */
module Rows {
  import opened Wrappers
  import opened Price

  datatype JobStatus =
    | Pending | Running | Paused | WaitingConfig | WaitingBudget
    | OutcomeUnknown | Failed | Cancelled | CancelRequested
    | Ended(name: string)

  datatype TaskStatus = Pending | Leased | Succeeded | Failed | Cancelled | OutcomeUnknown

  datatype AttemptState =
    | Created | Dispatching | Settled | OutcomeUnknown | NotExecuted | Succeeded | Failed | KnownFailed

  datatype PermitState = Reserved | Unknown | Released | Settled

  datatype Profile = Profile(price: Option<PriceSnapshot>, controlled: bool)

  datatype Permit = Permit(
    state: PermitState, price: Option<PriceSnapshot>, controlled: bool,
    reserved: Option<int>, actual: Option<int>)

  datatype JobRow = JobRow(
    status: JobStatus, epoch: nat, stage: string, error: string, createdAt: nat,
    profile: Profile, analysis: Profile, localPreparation: bool, savedRevision: bool,
    confirmed: bool, budget: Option<int>, superseded: bool, document: Option<nat>)

  /** `work` is the digest a validated checkpoint must carry to spare a new inference. */
  datatype TaskRow = TaskRow(
    job: nat, kind: string, status: TaskStatus, fence: nat, attempts: nat, expires: nat,
    availableAt: nat, createdAt: nat, preparation: bool, repairs: nat, work: Option<string>)

  datatype AttemptRow = AttemptRow(
    task: nat, job: nat, fence: nat, epoch: nat, createdAt: nat, state: AttemptState,
    usage: Option<Usage>, request: Option<string>, validated: set<string>, permit: Option<Permit>)

  datatype SettingsRow = SettingsRow(
    maintenance: bool, dispatchDisabled: bool, instanceBudget: int, concurrency: nat)

  /** `deleted` holds the documents with a tombstone. */
  datatype State = State(
    jobs: seq<JobRow>, tasks: seq<TaskRow>, attempts: seq<AttemptRow>, settings: SettingsRow, deleted: set<nat>)

  datatype Lease = Lease(task: nat, job: nat, attempt: nat, fence: nat, epoch: nat)

  /** Whether the lease is the one recorded by its attempt row; only `claim` makes leases. */
  predicate Issued(s: State, l: Lease) {
    && l.attempt < |s.attempts| && l.task < |s.tasks| && l.job < |s.jobs|
    && var a := s.attempts[l.attempt];
       a.task == l.task && a.job == l.job && a.fence == l.fence && a.epoch == l.epoch
  }

  predicate Terminal(status: JobStatus) {
    status.Failed? || status.Cancelled?
    || (status.Ended? && status.name in {"succeeded", "completed", "completed_with_warnings", "partially_completed"})
  }

  /** Whether the job's document was deleted. */
  predicate Tombstoned(s: State, job: JobRow) {
    job.document.Some? && job.document.value in s.deleted
  }

  predicate Holds(a: AttemptRow, state: PermitState) {
    a.permit.Some? && a.permit.value.state == state
  }

  function SetPermit(a: AttemptRow, state: PermitState): AttemptRow
    requires a.permit.Some?
  {
    a.(permit := Some(a.permit.value.(state := state)))
  }

  function PutJob(s: State, j: nat, row: JobRow): State
    requires j < |s.jobs|
  {
    s.(jobs := s.jobs[j := row])
  }

  function PutTask(s: State, t: nat, row: TaskRow): State
    requires t < |s.tasks|
  {
    s.(tasks := s.tasks[t := row])
  }

  function PutAttempt(s: State, a: nat, row: AttemptRow): State
    requires a < |s.attempts|
  {
    s.(attempts := s.attempts[a := row])
  }

  /** Status of a task and its job, written together. */
  function PutStatus(s: State, t: nat, j: nat, task: TaskStatus, job: JobStatus): State
    requires t < |s.tasks| && j < |s.jobs|
  {
    PutJob(PutTask(s, t, s.tasks[t].(status := task)), j, s.jobs[j].(status := job))
  }

  /** The attempt a task's fence points at. */
  function FindAttempt(attempts: seq<AttemptRow>, t: nat, fence: nat): (r: Option<nat>)
    ensures r.Some? ==> r.value < |attempts| && attempts[r.value].task == t && attempts[r.value].fence == fence
    ensures r.None? ==> forall a :: 0 <= a < |attempts| ==> attempts[a].task != t || attempts[a].fence != fence
  {
    if attempts == [] then None
    else
      var last := |attempts| - 1;
      if attempts[last].task == t && attempts[last].fence == fence then Some(last)
      else FindAttempt(attempts[..last], t, fence)
  }
}
