/** What the ledger's transactions do to the money, permit by permit. */
module Accounts {
  import opened Wrappers
  import opened Price
  import opened Rows
  import opened Queue
  import opened Ledger
  import opened Budget

  /** Nothing but attempt `a` changes. */
  ghost predicate OnlyAttempt(s: State, r: State, a: nat) {
    a < |s.attempts| == |r.attempts| && r == s.(attempts := s.attempts[a := r.attempts[a]], settings := r.settings)
  }

  /** An authorization reserves exactly the amount it was given, at the given price, under the profile's
      cost control, and sends the attempt. */
  lemma {:induction false} AuthorizedAmount(s: State, l: Lease, now: nat, memo: set<Lease>, amount: Option<int>,
      price: Option<PriceSnapshot>, current: bool)
    requires Issued(s, l) && Authorize(s, l, now, memo, amount, price, current).Success?
    ensures var r := Authorize(s, l, now, memo, amount, price, current).value;
      var profile := DispatchProfile(s.jobs[l.job], s.tasks[l.task]);
      && OnlyAttempt(s, r, l.attempt) && r.settings == s.settings && r.attempts[l.attempt].state.Dispatching?
      && r.attempts[l.attempt].permit == Some(Permit(PermitState.Reserved, price, profile.controlled, amount, None))
      && profile.price == price
      && Total(r.attempts, None) == Total(s.attempts, None) + (if profile.controlled then amount.value else 0)
      && Total(r.attempts, Some(l.job))
           == Total(s.attempts, Some(l.job)) + (if profile.controlled then amount.value else 0)
  {
    var r := Authorize(s, l, now, memo, amount, price, current).value;
    IssuingAdds(s.attempts, l.attempt, r.attempts[l.attempt], None);
    IssuingAdds(s.attempts, l.attempt, r.attempts[l.attempt], Some(l.job));
  }

  /** The totals of one budget leave room for the amount. */
  ghost predicate HasRoom(attempts: seq<AttemptRow>, job: Option<nat>, limit: Option<int>, amount: int) {
    limit.Some? && Total(attempts, job) + amount <= limit.value
  }

  /** A permit is given exactly to a current lease of a confirmed job, at the profile's price and with a bound,
      for a fresh attempt without a permit, while dispatch is on, requests in flight leave room, and both
      budgets do. */
  lemma {:induction false} AuthorizedExactly(s: State, l: Lease, now: nat, memo: set<Lease>, amount: Option<int>,
      price: Option<PriceSnapshot>, current: bool)
    requires Issued(s, l) && Funded(s.attempts)
    ensures var job, task, a := s.jobs[l.job], s.tasks[l.task], s.attempts[l.attempt];
      var profile := if task.preparation && job.localPreparation then job.analysis else job.profile;
      Authorize(s, l, now, memo, amount, price, current).Success? <==>
        && CurrentError(s, l, now, memo, RUNNING) == "" && !s.settings.dispatchDisabled && job.confirmed
        && (task.preparation && job.localPreparation ==> current) && profile.price == price
        && (profile.controlled ==> ValidPrice(price)) && BoundGiven(profile.controlled, amount, price)
        && a.permit.None? && a.state.Created? && InFlight(s.attempts) < s.settings.concurrency
        && (profile.controlled ==>
              && HasRoom(s.attempts, None, Some(s.settings.instanceBudget), amount.value)
              && HasRoom(s.attempts, Some(l.job), job.budget, amount.value))
  {
    TotalsAreExposure(s.attempts, None);
    TotalsAreExposure(s.attempts, Some(l.job));
  }

  /** A controlled request needs a positive bound, or zero at a price that is zero throughout; an uncontrolled
      one has none. */
  lemma {:induction false} BoundIsExact(controlled: bool, amount: Option<int>, price: Option<PriceSnapshot>)
    ensures BoundGiven(controlled, amount, price) && controlled ==> amount.Some? && amount.value >= 0
    ensures BoundGiven(true, Some(0), price) <==>
      price.Some? && price.value.inputRate == 0 && price.value.cachedRate == 0 && price.value.outputRate == 0
    ensures forall n: int :: n > 0 ==> BoundGiven(true, Some(n), price)
    ensures BoundGiven(false, amount, price) <==> amount.None?
  {}

  /** A settlement stores the least amount that pays for the reported tokens at the permit's own price, with
      the evidence, and switches dispatch off exactly when that exceeds the reservation. */
  lemma {:induction false} SettledAmount(s: State, a: nat, u: Usage, request: Option<string>, n: int)
    requires a < |s.attempts| && s.attempts[a].permit.Some? && s.attempts[a].permit.value.controlled
    requires !Holds(s.attempts[a], PermitState.Settled) && s.attempts[a].permit.value.price.Some?
    requires Settle(s, a, Some(u), request).Success?
    ensures var r, p := Settle(s, a, Some(u), request).value, s.attempts[a].permit.value;
      && OnlyAttempt(s, r, a) && Holds(r.attempts[a], PermitState.Settled) && r.attempts[a].state.Settled?
      && r.attempts[a].usage == Some(u) && r.attempts[a].request == request && r.attempts[a].permit.value.actual.Some?
      && var cost := r.attempts[a].permit.value.actual.value;
         && (Pays(p.price.value, u.input - u.cached, u.cached, u.output, n) <==> cost <= n)
         && (r.settings.dispatchDisabled <==>
           s.settings.dispatchDisabled || (p.reserved.Some? && cost > p.reserved.value))
         && r.settings == s.settings.(dispatchDisabled := r.settings.dispatchDisabled)
  {
    ActualCostIsLeast(s.attempts[a].permit.value.price, Some(u), n);
  }

  /** Without cost control a settlement is booked whatever the record says; the amount stays unknown when it
      cannot be priced, and dispatch is left alone. */
  lemma {:induction false} UncontrolledSettlement(s: State, a: nat, usage: Option<Usage>, request: Option<string>)
    requires a < |s.attempts| && s.attempts[a].permit.Some? && !s.attempts[a].permit.value.controlled
    requires Holds(s.attempts[a], PermitState.Reserved) || Holds(s.attempts[a], PermitState.Unknown)
    ensures var priced := ActualCost(s.attempts[a].permit.value.price, usage);
      && Settle(s, a, usage, request).Success?
      && var r := Settle(s, a, usage, request).value;
         && OnlyAttempt(s, r, a) && r.settings == s.settings && Holds(r.attempts[a], PermitState.Settled)
         && r.attempts[a].permit.value.actual == (if priced.Success? then Some(priced.value) else None)
  {}

  /** Settling is idempotent on equal evidence and refuses any other evidence afterwards. */
  lemma {:induction false} SettledTwice(s: State, a: nat, usage: Option<Usage>, request: Option<string>,
      later: Option<Usage>, other: Option<string>)
    requires a < |s.attempts| && Settle(s, a, usage, request).Success?
    ensures var r := Settle(s, a, usage, request).value;
      && |r.attempts| == |s.attempts| && Settle(r, a, usage, request) == Success(r)
      && (Settle(r, a, later, other).Success? ==> later == usage && other == request)
  {}

  /** A settlement is refused exactly without a permit, without a price for it under cost control, for a
      released permit, or with evidence that contradicts an earlier one. */
  lemma {:induction false} SettleIsRefused(s: State, a: nat, usage: Option<Usage>, request: Option<string>)
    requires a < |s.attempts|
    ensures var row := s.attempts[a];
      Settle(s, a, usage, request).Failure? <==>
        || row.permit.None?
        || (row.permit.value.controlled && ActualCost(row.permit.value.price, usage).Failure?)
        || row.permit.value.state.Released?
        || (row.permit.value.state.Settled? && !SameEvidence(row, usage, request))
  {}

  ghost predicate SameEvidence(row: AttemptRow, usage: Option<Usage>, request: Option<string>)
    requires row.permit.Some?
  {
    var priced := ActualCost(row.permit.value.price, usage);
    row.usage == usage && row.request == request
      && row.permit.value.actual == if priced.Success? then Some(priced.value) else None
  }

  /** Releasing an unsent request frees exactly what it had reserved; only a reserved permit can be released. */
  lemma {:induction false} ReleasedAmount(s: State, a: nat, job: Option<nat>)
    requires a < |s.attempts|
    ensures ReleaseUnsent(s, a).Success? <==> Holds(s.attempts[a], PermitState.Reserved)
    ensures ReleaseUnsent(s, a).Success? ==>
      (var r := ReleaseUnsent(s, a).value;
       && OnlyAttempt(s, r, a) && r.settings == s.settings && Holds(r.attempts[a], PermitState.Released)
       && r.attempts[a].state.NotExecuted?
       && Total(r.attempts, job) == Total(s.attempts, job) - Exposure(s.attempts[a], job))
  {
    if ReleaseUnsent(s, a).Success? { ReplaceOne(s.attempts, a, ReleaseUnsent(s, a).value.attempts[a], job); }
  }

  /** What the permits of one state add up to. */
  ghost function Sum(attempts: seq<AttemptRow>, job: Option<nat>, state: PermitState): int {
    if attempts == [] then 0
    else
      var last := attempts[|attempts| - 1];
      Sum(attempts[..|attempts| - 1], job, state) + if Holds(last, state) then Exposure(last, job) else 0
  }

  /** Each column of the ledger holds its own permits: what was paid, what is reserved, what is uncertain. */
  lemma {:induction false} ColumnsAreSeparate(attempts: seq<AttemptRow>, job: Option<nat>)
    requires Funded(attempts)
    ensures BudgetTotals(attempts, job, true) == Totals(Some(Sum(attempts, job, PermitState.Settled)),
      Some(Sum(attempts, job, PermitState.Reserved)), Some(Sum(attempts, job, PermitState.Unknown)))
  {
    if attempts != [] {
      var n := |attempts| - 1;
      assert Funded(attempts[..n]);
      ColumnsAreSeparate(attempts[..n], job);
      assert attempts[n].permit.Some? ==> FundedPermit(attempts[n].permit.value);
    }
  }

  /** An amount nobody knows makes its column unknown, and no amount fits a budget then. */
  lemma {:induction false} UnknownPoisons(attempts: seq<AttemptRow>, job: Option<nat>, limit: Option<int>, amount: int,
    a: nat)
    requires a < |attempts| && Counted(attempts[a], job, false) && !attempts[a].permit.value.state.Released?
    requires AmountMissing(attempts[a].permit.value)
    ensures !WithinBudget(limit, BudgetTotals(attempts, job, false), amount)
  {
    Poisoned(attempts, job, a);
  }

  /** The amount its column would count is not known. */
  predicate AmountMissing(p: Permit) {
    if p.state.Settled? then p.actual.None? else p.reserved.None?
  }

  lemma {:induction false} Poisoned(attempts: seq<AttemptRow>, job: Option<nat>, a: nat)
    requires a < |attempts| && Counted(attempts[a], job, false) && !attempts[a].permit.value.state.Released?
    requires AmountMissing(attempts[a].permit.value)
    ensures var t := BudgetTotals(attempts, job, false);
      match attempts[a].permit.value.state
      case Settled => t.actual.None?
      case Reserved => t.reserved.None?
      case _ => t.unknown.None?
  {
    var n := |attempts| - 1;
    if a < n {
      assert attempts[..n][a] == attempts[a];
      Poisoned(attempts[..n], job, a);
    }
  }

  /** Dispatch goes on over uncertain charges only if the risk is accepted; the switch does nothing else. */
  lemma {:induction false} DispatchSwitch(s: State, disabled: bool, riskAccepted: bool)
    ensures UpdateDispatch(s, disabled, riskAccepted).Success? <==>
      !s.settings.maintenance && (disabled || riskAccepted || forall a :: 0 <= a < |s.attempts| ==>
        !Holds(s.attempts[a], PermitState.Unknown))
    ensures UpdateDispatch(s, disabled, riskAccepted).Success? ==>
      UpdateDispatch(s, disabled, riskAccepted).value == s.(settings := s.settings.(dispatchDisabled := disabled))
  {}
}
