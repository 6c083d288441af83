/** Every transaction as a step, and runs as sequences of steps. */
module Steps {
  import opened Wrappers
  import opened Price
  import opened Rows
  import opened Queue
  import opened Ledger
  import opened Executor
  import opened Control
  import opened Deletion

  datatype Step =
    | Enqueue(newJob: JobRow)
    | AddTask(newTask: TaskRow)
    | ClaimTask(scene: Scene, seconds: nat)
    | RenewLease(lease: Lease, now: nat, seconds: nat)
    | FinishTask(lease: Lease, now: nat, memo: set<Lease>, status: JobStatus)
    | Recover(now: nat, order: seq<nat>)
    | AuthorizeDispatch(lease: Lease, now: nat, memo: set<Lease>, amount: Option<int>, price: Option<PriceSnapshot>,
        profileCurrent: bool)
    | MarkUncertain(attempt: nat)
    | Release(attempt: nat)
    | SettlePermit(attempt: nat, usage: Option<Usage>, request: Option<string>)
    | FailTask(lease: Lease, code: string)
    | Wait(lease: Lease, now: nat, memo: set<Lease>, code: string)
    | Retry(lease: Lease, outcome: Outcome, code: string, now: nat, delay: nat, repaired: Option<string>,
        finalized: Summary)
    | StopConnectionTest(lease: Lease, now: nat, memo: set<Lease>, code: string, result: Option<Outcome>)
    | Checkpoint(attempt: nat, work: string)
    | Command(job: nat, action: Action)
    | Resolve(attempt: nat, decision: Decision, budget: Option<int>, riskConfirmed: bool)
    | Maintenance(enabled: bool, dispatchDisabled: bool)
    | Dispatch(disabled: bool, riskAccepted: bool)
    | DeleteDocument(document: nat, now: nat)
    | Cleanup(lease: Lease, now: nat)
    | ReplaceSource(document: nat)
    | ContinueDraft(previous: set<nat>)

  /** A refused transaction is rolled back. */
  function Commit(s: State, r: Result<State, string>): State {
    if r.Success? then r.value else s
  }

  /** A row that names a job or task the tables do not hold is rejected by its foreign key. */
  function Apply(s: State, step: Step): State {
    match step
    case Enqueue(job) => if Tombstoned(s, job) then s else NewJob(s, job)
    case AddTask(task) =>
      if task.job < |s.jobs| then NewTask(s, task) else s
    case ClaimTask(scene, seconds) => (match Claim(s, scene, seconds) case None => s case Some(r) => r.0)
    case RenewLease(l, now, seconds) => if Issued(s, l) then Queue.Renew(s, l, now, seconds) else s
    case FinishTask(l, now, memo, status) =>
      if Issued(s, l) then Commit(s, Queue.Finish(s, l, now, memo, status)) else s
    case Recover(now, order) => RecoverExpired(s, now, order)
    case AuthorizeDispatch(l, now, memo, amount, price, current) =>
      if Issued(s, l) then Commit(s, Authorize(s, l, now, memo, amount, price, current)) else s
    case MarkUncertain(a) => if a < |s.attempts| then Commit(s, MarkUnknown(s, a)) else s
    case Release(a) => if a < |s.attempts| then Commit(s, ReleaseUnsent(s, a)) else s
    case SettlePermit(a, usage, request) => if a < |s.attempts| then Commit(s, Settle(s, a, usage, request)) else s
    case FailTask(l, code) => if Issued(s, l) then FailExecution(s, l, code) else s
    case Wait(l, now, memo, code) => if Issued(s, l) then Commit(s, WaitWithoutDispatch(s, l, now, memo, code)) else s
    case Retry(l, outcome, code, now, delay, repaired, finalized) =>
      if Issued(s, l) then Commit(s, RetryOrStop(s, l, outcome, code, now, delay, repaired, finalized)) else s
    case StopConnectionTest(l, now, memo, code, result) =>
      if Issued(s, l) then Commit(s, StopTest(s, l, now, memo, code, result)) else s
    case Checkpoint(a, work) => if a < |s.attempts| then RecordCheckpoint(s, a, work) else s
    case Command(j, action) => if j < |s.jobs| then Commit(s, ControlJob(s, j, action)) else s
    case Resolve(a, decision, budget, risk) =>
      if a < |s.attempts| && s.attempts[a].job < |s.jobs| && s.attempts[a].task < |s.tasks|
      then Commit(s, ResolveAttempt(s, a, decision, budget, risk)) else s
    case Maintenance(enabled, disabled) => SetMaintenance(s, enabled, disabled)
    case Dispatch(disabled, risk) => Commit(s, UpdateDispatch(s, disabled, risk))
    case DeleteDocument(d, now) => Commit(s, Deletion.DeleteDocument(s, d, now))
    case Cleanup(l, now) => if Issued(s, l) then Commit(s, CleanupDocument(s, l, now)) else s
    case ReplaceSource(d) => Commit(s, Deletion.ReplaceSource(s, d))
    case ContinueDraft(previous) => Commit(s, Deletion.ContinueDraft(s, previous))
  }

  /** The step issues a permit. */
  ghost predicate Authorizes(s: State, step: Step) {
    && step.AuthorizeDispatch? && Issued(s, step.lease)
    && Authorize(s, step.lease, step.now, step.memo, step.amount, step.price, step.profileCurrent).Success?
  }

  function Run(s: State, steps: seq<Step>): State
    decreases |steps|
  {
    if steps == [] then s else Apply(Run(s, steps[..|steps| - 1]), steps[|steps| - 1])
  }

  lemma {:induction false} OneMoreStep(s: State, steps: seq<Step>, n: nat)
    requires 0 < n <= |steps|
    ensures Run(s, steps[..n]) == Apply(Run(s, steps[..n - 1]), steps[n - 1])
  {
    assert steps[..n][..n - 1] == steps[..n - 1];
  }

  function Initial(settings: SettingsRow): State {
    State([], [], [], settings, {})
  }
}
