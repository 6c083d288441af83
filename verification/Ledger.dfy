/** Dispatch permits and the budget (src/packages/billing/ledger.py, src/packages/billing/dispatch.py). */
module Ledger {
  import opened Wrappers
  import opened Price
  import opened Rows
  import opened Queue

  /** Accumulated amounts; one unknown amount makes its whole column unknown. */
  datatype Totals = Totals(actual: Option<int>, reserved: Option<int>, unknown: Option<int>)

  function Plus(total: Option<int>, amount: Option<int>): Option<int> {
    if total.None? || amount.None? then None else Some(total.value + amount.value)
  }

  predicate Counted(a: AttemptRow, job: Option<nat>, controlledOnly: bool) {
    a.permit.Some? && (job.None? || a.job == job.value) && (controlledOnly ==> a.permit.value.controlled)
  }

  function AddPermit(totals: Totals, p: Permit): Totals {
    match p.state
    case Settled => totals.(actual := Plus(totals.actual, p.actual))
    case Unknown => totals.(unknown := Plus(totals.unknown, p.reserved))
    case Reserved => totals.(reserved := Plus(totals.reserved, p.reserved))
    case Released => totals
  }

  function BudgetTotals(attempts: seq<AttemptRow>, job: Option<nat>, controlledOnly: bool): Totals {
    if attempts == [] then Totals(Some(0), Some(0), Some(0))
    else
      var last := attempts[|attempts| - 1];
      var earlier := BudgetTotals(attempts[..|attempts| - 1], job, controlledOnly);
      if Counted(last, job, controlledOnly) then AddPermit(earlier, last.permit.value) else earlier
  }

  predicate WithinBudget(limit: Option<int>, totals: Totals, amount: int) {
    && limit.Some? && totals.actual.Some? && totals.reserved.Some? && totals.unknown.Some?
    && limit.value - (totals.actual.value + totals.reserved.value + totals.unknown.value) >= amount
  }

  function InFlight(attempts: seq<AttemptRow>): nat {
    if attempts == [] then 0
    else InFlight(attempts[..|attempts| - 1]) + if Holds(attempts[|attempts| - 1], PermitState.Reserved) then 1 else 0
  }

  function DispatchProfile(job: JobRow, task: TaskRow): Profile {
    if task.preparation && job.localPreparation then job.analysis else job.profile
  }

  predicate BoundGiven(controlled: bool, amount: Option<int>, price: Option<PriceSnapshot>) {
    if controlled then
      amount.Some? && (amount.value > 0 || (amount.value == 0 && price.Some? && Free(price.value)))
    else amount.None?
  }

  /** The first failed requirement of `authorize`, or "". `profileCurrent` is the check of
      a local analysis profile against the installed one. */
  function AuthorizeError(s: State, l: Lease, now: nat, memo: set<Lease>, amount: Option<int>,
      price: Option<PriceSnapshot>, profileCurrent: bool): string
    requires Issued(s, l)
  {
    var task, job := s.tasks[l.task], s.jobs[l.job];
    var profile := DispatchProfile(job, task);
    var current := CurrentError(s, l, now, memo, RUNNING);
    if current != "" then current
    else if s.settings.dispatchDisabled then "DISPATCH_DISABLED"
    else if !job.confirmed then "EXTERNAL_PROCESSING_UNCONFIRMED"
    else if task.preparation && job.localPreparation && !profileCurrent then "PROVIDER_PROFILE_STALE"
    else if profile.price != price then "PRICE_SNAPSHOT_STALE"
    else if profile.controlled && PriceError(price) != "" then PriceError(price)
    else if !BoundGiven(profile.controlled, amount, price) then "PRICE_BOUND_REQUIRED"
    else if s.attempts[l.attempt].permit.Some? then "DISPATCH_ALREADY_AUTHORIZED"
    else if InFlight(s.attempts) >= s.settings.concurrency then "INSTANCE_CONCURRENCY_LIMIT"
    else if profile.controlled
      && !(WithinBudget(Some(s.settings.instanceBudget), BudgetTotals(s.attempts, None, true), amount.value)
        && WithinBudget(job.budget, BudgetTotals(s.attempts, Some(l.job), true), amount.value)) then "BUDGET_PAUSED"
    else if !s.attempts[l.attempt].state.Created? then "ATTEMPT_ALREADY_SENT"
    else ""
  }

  function Authorize(s: State, l: Lease, now: nat, memo: set<Lease>, amount: Option<int>,
      price: Option<PriceSnapshot>, profileCurrent: bool): Result<State, string>
    requires Issued(s, l)
  {
    var code := AuthorizeError(s, l, now, memo, amount, price, profileCurrent);
    if code != "" then Failure(code)
    else
      var controlled := DispatchProfile(s.jobs[l.job], s.tasks[l.task]).controlled;
      var permit := Permit(PermitState.Reserved, price, controlled, amount, None);
      Success(PutAttempt(s, l.attempt,
        s.attempts[l.attempt].(state := AttemptState.Dispatching, permit := Some(permit))))
  }

  /** As written, a released permit is accepted; only a settled one is left alone. */
  function MarkUnknown(s: State, a: nat): Result<State, string>
    requires a < |s.attempts|
  {
    if s.attempts[a].permit.None? then Failure("PERMIT_MISSING")
    else if Holds(s.attempts[a], PermitState.Settled) then Success(s)
    else Success(PutAttempt(s, a, SetPermit(s.attempts[a], PermitState.Unknown).(state := AttemptState.OutcomeUnknown)))
  }

  function ReleaseUnsent(s: State, a: nat): Result<State, string>
    requires a < |s.attempts|
  {
    if !Holds(s.attempts[a], PermitState.Reserved) then Failure("PERMIT_NOT_RESERVED")
    else Success(PutAttempt(s, a, SetPermit(s.attempts[a], PermitState.Released).(state := AttemptState.NotExecuted)))
  }

  predicate Overrun(controlled: bool, cost: Option<int>, reserved: Option<int>) {
    controlled && cost.Some? && reserved.Some? && cost.value > reserved.value
  }

  function Settle(s: State, a: nat, usage: Option<Usage>, request: Option<string>): Result<State, string>
    requires a < |s.attempts|
  {
    var row := s.attempts[a];
    if row.permit.None? then Failure("PERMIT_MISSING")
    else
      var p := row.permit.value;
      var priced := ActualCost(p.price, usage);
      var cost := if priced.Success? then Some(priced.value) else None;
      if p.controlled && priced.Failure? then Failure(priced.error)
      else if p.state.Settled? then
        if row.usage == usage && row.request == request && p.actual == cost then Success(s)
          else Failure("USAGE_EVIDENCE_CONFLICT")
      else if p.state.Released? then Failure("PERMIT_NOT_SETTLEABLE")
      else
        var paid := p.(state := PermitState.Settled, actual := cost);
        var s1 := PutAttempt(s, a,
          row.(state := AttemptState.Settled, usage := usage, request := request, permit := Some(paid)));
        Success(if Overrun(p.controlled, cost, p.reserved) then
          s1.(settings := s1.settings.(dispatchDisabled := true)) else s1)
  }

  /** Enabling dispatch over unresolved charges needs an explicit acknowledgment. */
  function UpdateDispatch(s: State, disabled: bool, riskAccepted: bool): Result<State, string> {
    if s.settings.maintenance then Failure("MAINTENANCE")
    else if !disabled && !riskAccepted && exists a :: 0 <= a < |s.attempts| && Holds(s.attempts[a], PermitState.Unknown)
    then Failure("UNRESOLVED_BILLING_RISK")
    else Success(s.(settings := s.settings.(dispatchDisabled := disabled)))
  }
}
