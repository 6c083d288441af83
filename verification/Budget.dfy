/** Money over every run: the budget bound, the overrun switch and the number of requests in flight. */
module Budget {
  import opened Wrappers
  import opened Price
  import opened Rows
  import opened Queue
  import opened Ledger
  import opened Executor
  import opened Control
  import opened Steps
  import opened Workers

  /** Whether the attempt belongs to the job, or no job is named. */
  predicate Of(a: AttemptRow, job: Option<nat>) {
    job.None? || a.job == job.value
  }

  /** What a controlled permit counts against the budget of one job, or of the instance. */
  function Exposure(a: AttemptRow, job: Option<nat>): int {
    if a.permit.None? || !a.permit.value.controlled || !Of(a, job) then 0
    else
      var p := a.permit.value;
      match p.state
      case Settled => if p.actual.Some? then p.actual.value else 0
      case Released => 0
      case _ => if p.reserved.Some? then p.reserved.value else 0
  }

  /** By how much a settled charge exceeded its reservation. */
  function Excess(a: AttemptRow, job: Option<nat>): int {
    if a.permit.Some? && Of(a, job) && a.permit.value.state.Settled?
        && Overrun(a.permit.value.controlled, a.permit.value.actual, a.permit.value.reserved)
    then a.permit.value.actual.value - a.permit.value.reserved.value else 0
  }

  function Total(attempts: seq<AttemptRow>, job: Option<nat>): int {
    if attempts == [] then 0 else Total(attempts[..|attempts| - 1], job) + Exposure(attempts[|attempts| - 1], job)
  }

  function Overruns(attempts: seq<AttemptRow>, job: Option<nat>): int {
    if attempts == [] then 0 else Overruns(attempts[..|attempts| - 1], job) + Excess(attempts[|attempts| - 1], job)
  }

  /** Controlled permits carry a nonnegative reservation, and a nonnegative cost once settled. */
  ghost predicate FundedPermit(p: Permit) {
    p.controlled ==>
      && p.reserved.Some? && p.reserved.value >= 0
      && (p.state.Settled? ==> p.actual.Some? && p.actual.value >= 0)
  }

  ghost predicate Funded(attempts: seq<AttemptRow>) {
    forall a :: 0 <= a < |attempts| && attempts[a].permit.Some? ==> FundedPermit(attempts[a].permit.value)
  }

  /** The three columns of the ledger add up to the exposure. */
  lemma {:induction false} TotalsAreExposure(attempts: seq<AttemptRow>, job: Option<nat>)
    requires Funded(attempts)
    ensures var t := BudgetTotals(attempts, job, true);
      && t.actual.Some? && t.reserved.Some? && t.unknown.Some?
      && t.actual.value + t.reserved.value + t.unknown.value == Total(attempts, job)
  {
    if attempts != [] {
      var n := |attempts| - 1;
      assert Funded(attempts[..n]);
      TotalsAreExposure(attempts[..n], job);
      assert attempts[n].permit.Some? ==> FundedPermit(attempts[n].permit.value);
    }
  }

  /** What one step may do to a permit, short of reviving a released one. */
  ghost predicate Spends(p: Permit, q: Permit) {
    || q == p
    || ((p.state.Reserved? || p.state.Unknown?) && q == p.(state := q.state, actual := q.actual)
        && (q.state.Settled? ==> (p.controlled ==> q.actual.Some? && q.actual.value >= 0))
        && (!q.state.Settled? ==> q.actual == p.actual)
        && (q.state.Reserved? || q.state.Released? ==> p.state.Reserved?))
  }

  ghost predicate SpendsAt(a: AttemptRow, b: AttemptRow) {
    a.job == b.job && a.permit.Some? == b.permit.Some? && (a.permit.Some? ==> Spends(a.permit.value, b.permit.value))
  }

  /** No permit is issued; new attempts have none. */
  ghost predicate NoNewPermit(s: State, r: State) {
    && |s.attempts| <= |r.attempts|
    && (forall a :: 0 <= a < |s.attempts| ==> SpendsAt(s.attempts[a], r.attempts[a]))
    && (forall a :: |s.attempts| <= a < |r.attempts| ==> r.attempts[a].permit.None?)
  }

  lemma {:induction false} NoNewPermitTrans(s: State, m: State, r: State)
    requires NoNewPermit(s, m) && NoNewPermit(m, r)
    ensures NoNewPermit(s, r)
  {
    forall a | 0 <= a < |s.attempts| ensures SpendsAt(s.attempts[a], r.attempts[a]) {
      assert SpendsAt(s.attempts[a], m.attempts[a]) && SpendsAt(m.attempts[a], r.attempts[a]);
    }
    forall a | |s.attempts| <= a < |r.attempts| ensures r.attempts[a].permit.None? {
      if a < |m.attempts| { assert SpendsAt(m.attempts[a], r.attempts[a]); }
    }
  }

  lemma {:induction false} RecoverSpends(s: State, t: nat)
    requires t < |s.tasks| && s.tasks[t].job < |s.jobs|
    ensures NoNewPermit(s, RecoverTask(s, t))
  {}

  lemma {:induction false} RecoverAllSpends(s: State, now: nat, order: seq<nat>)
    ensures NoNewPermit(s, RecoverAll(s, now, order))
    decreases |order|
  {
    if order != [] {
      var m := if Expired(s, order[0], now) then RecoverTask(s, order[0]) else s;
      if Expired(s, order[0], now) { RecoverSpends(s, order[0]); }
      RecoverAllSpends(m, now, order[1..]);
      NoNewPermitTrans(s, m, RecoverAll(s, now, order));
    }
  }

  lemma {:induction false} UncertainSpends(s: State, n: nat)
    requires n <= |s.attempts|
    ensures NoNewPermit(s, UncertainInflight(s, n))
  {
    if n > 0 {
      UncertainSpends(s, n - 1);
      var m := UncertainInflight(s, n - 1);
      assert NoNewPermit(m, UncertainOne(m, n - 1));
      NoNewPermitTrans(s, m, UncertainInflight(s, n));
    }
  }

  /** The steps that move money from `released` back to `unknown`. */
  ghost predicate Revives(s: State, step: Step) {
    match step
    case MarkUncertain(a) => a < |s.attempts| && Holds(s.attempts[a], PermitState.Released)
    case Retry(l, outcome, _, _, _, _, _) =>
      Issued(s, l) && outcome.Unknown? && Holds(s.attempts[l.attempt], PermitState.Released)
    case StopConnectionTest(l, _, _, _, result) =>
      Issued(s, l) && result == Some(Outcome.Unknown) && Holds(s.attempts[l.attempt], PermitState.Released)
    case _ => false
  }

  lemma {:induction false} SettleSpends(s: State, a: nat, usage: Option<Usage>, request: Option<string>)
    requires a < |s.attempts|
    ensures NoNewPermit(s, Commit(s, Settle(s, a, usage, request)))
  {
    if s.attempts[a].permit.Some? && ActualCost(s.attempts[a].permit.value.price, usage).Success? {
      ActualCostIsLeast(s.attempts[a].permit.value.price, usage, 0);
    }
  }

  lemma {:induction false} RetrySpends(s: State, l: Lease, outcome: Outcome, code: string, now: nat, delay: nat,
      repaired: Option<string>, finalized: Summary)
    requires Issued(s, l) && !(outcome.Unknown? && Holds(s.attempts[l.attempt], PermitState.Released))
    ensures NoNewPermit(s, Commit(s, RetryOrStop(s, l, outcome, code, now, delay, repaired, finalized)))
  {
    var classified := Classify(s, l.attempt, EffectiveOutcome(s, l.attempt, outcome));
    if classified.Success? {
      assert NoNewPermit(s, classified.value) && classified.value.jobs == s.jobs && classified.value.tasks == s.tasks;
      var r := Commit(s, RetryOrStop(s, l, outcome, code, now, delay, repaired, finalized));
      assert NoNewPermit(classified.value, r);
      NoNewPermitTrans(s, classified.value, r);
    }
  }

  lemma {:induction false} StopTestSpends(s: State, l: Lease, now: nat, memo: set<Lease>, code: string,
      result: Option<Outcome>)
    requires Issued(s, l) && !(result == Some(Outcome.Unknown) && Holds(s.attempts[l.attempt], PermitState.Released))
    ensures NoNewPermit(s, Commit(s, StopTest(s, l, now, memo, code, result)))
  {}

  lemma {:induction false} LeaseStepsSpend(s: State, step: Step)
    requires step.RenewLease? || step.FinishTask?
    ensures NoNewPermit(s, Apply(s, step))
  {}

  lemma {:induction false} FailureSpends(s: State, step: Step)
    requires step.FailTask?
    ensures NoNewPermit(s, Apply(s, step))
  {}

  lemma {:induction false} WaitSpends(s: State, step: Step)
    requires step.Wait?
    ensures NoNewPermit(s, Apply(s, step))
  {}

  lemma {:induction false} CleanupSpends(s: State, step: Step)
    requires step.Cleanup?
    ensures NoNewPermit(s, Apply(s, step))
  {}

  lemma {:induction false} QueueStepsSpend(s: State, step: Step)
    requires step.Enqueue? || step.AddTask? || step.ClaimTask?
    ensures NoNewPermit(s, Apply(s, step))
  {}

  lemma {:induction false} SameAttemptsSpend(s: State, r: State)
    requires r.attempts == s.attempts
    ensures NoNewPermit(s, r)
  {}

  lemma {:induction false} CommandsLeaveAttempts(s: State, step: Step)
    requires step.Command? || step.Dispatch? || step.DeleteDocument? || step.ReplaceSource? || step.ContinueDraft?
    ensures Apply(s, step).attempts == s.attempts
  {}

  lemma {:induction false} ResolveLeavesAttempts(s: State, step: Step)
    requires step.Resolve?
    ensures Apply(s, step).attempts == s.attempts
  {}

  lemma {:induction false} OtherStepsSpend(s: State, step: Step)
    requires step.Release? || step.Checkpoint?
    ensures NoNewPermit(s, Apply(s, step))
  {}

  lemma {:induction false} StepSpends(s: State, step: Step)
    requires !step.AuthorizeDispatch? && !Revives(s, step)
    ensures NoNewPermit(s, Apply(s, step))
  {
    assert NoNewPermit(s, s);
    match step
    case Recover(now, order) => RecoverAllSpends(s, now, order);
    case SettlePermit(a, usage, request) => if a < |s.attempts| { SettleSpends(s, a, usage, request); }
    case MarkUncertain(a) =>
    case Retry(l, outcome, code, now, delay, repaired, finalized) =>
      if Issued(s, l) { RetrySpends(s, l, outcome, code, now, delay, repaired, finalized); }
    case StopConnectionTest(l, now, memo, code, result) =>
      if Issued(s, l) { StopTestSpends(s, l, now, memo, code, result); }
    case Maintenance(enabled, disabled) =>
      UncertainSpends(s.(settings := s.settings.(maintenance := enabled, dispatchDisabled := disabled)), |s.attempts|);
    case _ =>
      if step.RenewLease? || step.FinishTask? { LeaseStepsSpend(s, step); }
      else if step.FailTask? { FailureSpends(s, step); }
      else if step.Wait? { WaitSpends(s, step); }
      else if step.Cleanup? { CleanupSpends(s, step); }
      else if step.Enqueue? || step.AddTask? || step.ClaimTask? { QueueStepsSpend(s, step); }
      else if step.Release? || step.Checkpoint? { OtherStepsSpend(s, step); }
      else {
        if step.Resolve? { ResolveLeavesAttempts(s, step); } else { CommandsLeaveAttempts(s, step); }
        SameAttemptsSpend(s, Apply(s, step));
      }
  }

  /** Spending never raises exposure beyond the excess it records. */
  lemma {:induction false} SpendingIsBounded(p: seq<AttemptRow>, q: seq<AttemptRow>, job: Option<nat>)
    requires |p| <= |q| && Funded(p)
    requires forall a :: 0 <= a < |p| ==> SpendsAt(p[a], q[a])
    requires forall a :: |p| <= a < |q| ==> q[a].permit.None?
    ensures Funded(q) && Total(q, job) - Overruns(q, job) <= Total(p, job) - Overruns(p, job)
    ensures InFlight(q) <= InFlight(p)
  {
    if q != [] {
      var n := |q| - 1;
      if |p| == |q| {
        assert Funded(p[..n]) && SpendsAt(p[n], q[n]);
        assert p[n].permit.Some? ==> FundedPermit(p[n].permit.value);
        SpendingIsBounded(p[..n], q[..n], job);
      } else {
        SpendingIsBounded(p, q[..n], job);
      }
      forall a | 0 <= a < |q| && q[a].permit.Some? ensures FundedPermit(q[a].permit.value) {
        if a < n { assert q[..n][a] == q[a]; } else { assert SpendsAt(p[n], q[n]) && FundedPermit(p[n].permit.value); }
      }
    }
  }

  lemma {:induction false} IssuingAdds(p: seq<AttemptRow>, a: nat, row: AttemptRow, job: Option<nat>)
    requires a < |p| && p[a].permit.None? && Holds(row, PermitState.Reserved)
    ensures Total(p[a := row], job) == Total(p, job) + Exposure(row, job)
    ensures Overruns(p[a := row], job) == Overruns(p, job)
    ensures InFlight(p[a := row]) == InFlight(p) + 1
  {
    var n := |p| - 1;
    if a == n {
      assert p[a := row][..n] == p[..n];
    } else {
      IssuingAdds(p[..n], a, row, job);
      assert p[a := row][..n] == p[..n][a := row];
    }
  }

  /** The charges of one job, or of the instance, stay within `limit` plus the recorded overruns. */
  ghost predicate Bounded(attempts: seq<AttemptRow>, job: Option<nat>, limit: int) {
    Total(attempts, job) <= limit + Overruns(attempts, job)
  }

  ghost predicate WithinBound(s: State) {
    && Funded(s.attempts)
    && Bounded(s.attempts, None, Max(s.settings.instanceBudget, 0))
    && InFlight(s.attempts) <= s.settings.concurrency
  }

  /** What a job may spend; without a budget nothing. */
  function JobLimit(s: State, j: nat): nat {
    if j < |s.jobs| && s.jobs[j].budget.Some? && s.jobs[j].budget.value > 0 then s.jobs[j].budget.value else 0
  }

  lemma {:induction false} OverrunsNonnegative(attempts: seq<AttemptRow>, job: Option<nat>)
    ensures Overruns(attempts, job) >= 0
  {
    if attempts != [] { OverrunsNonnegative(attempts[..|attempts| - 1], job); }
  }

  lemma {:induction false} AuthorizeWithinBound(s: State, l: Lease, now: nat, memo: set<Lease>, amount: Option<int>,
      price: Option<PriceSnapshot>, current: bool)
    requires WithinBound(s) && Issued(s, l) && Authorize(s, l, now, memo, amount, price, current).Success?
    ensures WithinBound(Authorize(s, l, now, memo, amount, price, current).value)
  {
    var r := Authorize(s, l, now, memo, amount, price, current).value;
    TotalsAreExposure(s.attempts, None);
    IssuingAdds(s.attempts, l.attempt, r.attempts[l.attempt], None);
    OverrunsNonnegative(s.attempts, None);
    forall a | 0 <= a < |r.attempts| && r.attempts[a].permit.Some? ensures FundedPermit(r.attempts[a].permit.value) {
      if a != l.attempt { assert r.attempts[a] == s.attempts[a]; }
    }
  }

  lemma {:induction false} AuthorizeWithinJob(s: State, step: Step, j: nat, limit: nat)
    requires Funded(s.attempts) && Authorizes(s, step) && Bounded(s.attempts, Some(j), limit) && JobLimit(s, j) <= limit
    ensures Bounded(Apply(s, step).attempts, Some(j), limit)
  {
    var l := step.lease;
    var row := Apply(s, step).attempts[l.attempt];
    TotalsAreExposure(s.attempts, Some(j));
    IssuingAdds(s.attempts, l.attempt, row, Some(j));
    OverrunsNonnegative(s.attempts, Some(j));
  }

  lemma {:induction false} UncertainKeepsSettings(s: State, n: nat)
    requires n <= |s.attempts|
    ensures UncertainInflight(s, n).settings == s.settings
  {
    if n > 0 { UncertainKeepsSettings(s, n - 1); }
  }

  lemma {:induction false} RecoverKeepsSettings(s: State, now: nat, order: seq<nat>)
    ensures RecoverAll(s, now, order).settings == s.settings
    decreases |order|
  {
    if order != [] {
      RecoverKeepsSettings(if Expired(s, order[0], now) then RecoverTask(s, order[0]) else s, now, order[1..]);
    }
  }

  /** Explicit switches that allow dispatch again. */
  ghost predicate Enables(step: Step) {
    (step.Dispatch? && !step.disabled) || (step.Maintenance? && !step.dispatchDisabled)
  }

  /** Limits never change, and only an explicit switch allows dispatch again. */
  ghost predicate KeepsSettings(s: State, r: State, step: Step) {
    && r.settings.instanceBudget == s.settings.instanceBudget && r.settings.concurrency == s.settings.concurrency
    && (s.settings.dispatchDisabled && !r.settings.dispatchDisabled ==> Enables(step))
  }

  lemma {:induction false} WorkerStepsKeepSettings(s: State, step: Step)
    requires step.FailTask? || step.Wait? || step.Retry? || step.StopConnectionTest? || step.Checkpoint?
    ensures KeepsSettings(s, Apply(s, step), step)
  {}

  lemma {:induction false} PermitStepsKeepSettings(s: State, step: Step)
    requires step.AuthorizeDispatch? || step.MarkUncertain? || step.Release? || step.SettlePermit?
    ensures KeepsSettings(s, Apply(s, step), step)
  {}

  lemma {:induction false} StepKeepsSettings(s: State, step: Step)
    ensures KeepsSettings(s, Apply(s, step), step)
  {
    match step
    case Recover(now, order) => RecoverKeepsSettings(s, now, order);
    case Maintenance(enabled, disabled) =>
      UncertainKeepsSettings(s.(settings := s.settings.(maintenance := enabled, dispatchDisabled := disabled)),
        |s.attempts|);
    case _ =>
      if step.FailTask? || step.Wait? || step.Retry? || step.StopConnectionTest? || step.Checkpoint? {
        WorkerStepsKeepSettings(s, step);
      }
      else if step.AuthorizeDispatch? || step.MarkUncertain? || step.Release? || step.SettlePermit? {
        PermitStepsKeepSettings(s, step);
      }
  }

  lemma {:induction false} StepWithinBound(s: State, step: Step)
    requires WithinBound(s) && !Revives(s, step)
    ensures WithinBound(Apply(s, step))
  {
    StepKeepsSettings(s, step);
    if step.AuthorizeDispatch? {
      if Issued(s, step.lease)
          && Authorize(s, step.lease, step.now, step.memo, step.amount, step.price, step.profileCurrent).Success? {
        AuthorizeWithinBound(s, step.lease, step.now, step.memo, step.amount, step.price, step.profileCurrent);
      }
    } else {
      StepSpends(s, step);
      SpendingIsBounded(s.attempts, Apply(s, step).attempts, None);
    }
  }

  ghost predicate RunRevives(s: State, steps: seq<Step>)
    decreases |steps|
  {
    steps != [] && (RunRevives(s, steps[..|steps| - 1]) || Revives(Run(s, steps[..|steps| - 1]), steps[|steps| - 1]))
  }

  /** The bounds hold of every run, in order or not, that revives no released permit. */
  lemma {:induction false} UnrevivedRunsAreBounded(settings: SettingsRow, steps: seq<Step>)
    requires !RunRevives(Initial(settings), steps)
    ensures var r := Run(Initial(settings), steps);
      && r.settings.instanceBudget == settings.instanceBudget && r.settings.concurrency == settings.concurrency
      && WithinBound(r)
    decreases |steps|
  {
    if steps != [] {
      var n := |steps| - 1;
      UnrevivedRunsAreBounded(settings, steps[..n]);
      StepWithinBound(Run(Initial(settings), steps[..n]), steps[n]);
      StepKeepsSettings(Run(Initial(settings), steps[..n]), steps[n]);
    }
  }

  lemma {:induction false} StepWithinJob(s: State, step: Step, j: nat, limit: nat)
    requires Funded(s.attempts) && Bounded(s.attempts, Some(j), limit) && JobLimit(s, j) <= limit && !Revives(s, step)
    ensures Bounded(Apply(s, step).attempts, Some(j), limit)
  {
    if Authorizes(s, step) { AuthorizeWithinJob(s, step, j, limit); }
    else if !step.AuthorizeDispatch? {
      StepSpends(s, step);
      SpendingIsBounded(s.attempts, Apply(s, step).attempts, Some(j));
    }
  }

  /** The highest budget job `j` had in any state of the run; a risk-accepted retry may set a new one. */
  function HighestLimit(s: State, steps: seq<Step>, j: nat): nat
    decreases |steps|
  {
    var now := JobLimit(Run(s, steps), j);
    if steps == [] then now else
      var before := HighestLimit(s, steps[..|steps| - 1], j);
      if before < now then now else before
  }

  lemma {:induction false} HigherLimit(attempts: seq<AttemptRow>, job: Option<nat>, limit: int, limit': int)
    requires Bounded(attempts, job, limit) && limit <= limit'
    ensures Bounded(attempts, job, limit')
  {}

  lemma {:induction false} UnrevivedJobsAreBounded(settings: SettingsRow, steps: seq<Step>, j: nat)
    requires !RunRevives(Initial(settings), steps)
    ensures Bounded(Run(Initial(settings), steps).attempts, Some(j), HighestLimit(Initial(settings), steps, j))
    decreases |steps|
  {
    if steps != [] {
      var n := |steps| - 1;
      var m, limit := Run(Initial(settings), steps[..n]), HighestLimit(Initial(settings), steps[..n], j);
      UnrevivedJobsAreBounded(settings, steps[..n], j);
      UnrevivedRunsAreBounded(settings, steps[..n]);
      LimitReached(Initial(settings), steps[..n], j);
      StepWithinJob(m, steps[n], j, limit);
      HigherLimit(Run(Initial(settings), steps).attempts, Some(j), limit, HighestLimit(Initial(settings), steps, j));
    }
  }

  lemma {:induction false} LimitReached(s: State, steps: seq<Step>, j: nat)
    ensures JobLimit(Run(s, steps), j) <= HighestLimit(s, steps, j)
  {}

  lemma {:induction false} AllowedRevivesNothing(s: State, phases: seq<Phase>, step: Step)
    requires InOrder(s, phases) && Allowed(s, phases, step)
    ensures !Revives(s, step)
  {
    match step
    case Retry(l, _, _, _, _, _, _) => if Issued(s, l) { assert Fits(s.attempts[l.attempt], phases[l.attempt]); }
    case StopConnectionTest(l, _, _, _, _) =>
      if Issued(s, l) { assert Fits(s.attempts[l.attempt], phases[l.attempt]); }
    case _ =>
  }

  /** Executors that keep their order call no released permit unknown. */
  lemma {:induction false} OrderedRunsReviveNothing(settings: SettingsRow, steps: seq<Step>)
    requires OrderedRun(Initial(settings), steps)
    ensures !RunRevives(Initial(settings), steps)
    decreases |steps|
  {
    if steps != [] {
      var n := |steps| - 1;
      OrderedRunsReviveNothing(settings, steps[..n]);
      OrderedRunsAreKept(settings, steps[..n]);
      AllowedRevivesNothing(Run(Initial(settings), steps[..n]), Phases(Initial(settings), steps[..n]), steps[n]);
    }
  }

  /** Over any run in order, settled, reserved and unknown charges together stay within the instance
      budget plus the recorded overruns, and requests in flight within the concurrency limit. */
  lemma {:induction false} RunsStayWithinBudget(settings: SettingsRow, steps: seq<Step>)
    requires OrderedRun(Initial(settings), steps)
    ensures var r := Run(Initial(settings), steps);
      && r.settings.instanceBudget == settings.instanceBudget && r.settings.concurrency == settings.concurrency
      && WithinBound(r)
  {
    OrderedRunsReviveNothing(settings, steps);
    UnrevivedRunsAreBounded(settings, steps);
  }

  /** Over the same runs the charges of every job stay within the highest budget it was ever given. */
  lemma {:induction false} JobsStayWithinBudget(settings: SettingsRow, steps: seq<Step>, j: nat)
    requires OrderedRun(Initial(settings), steps)
    ensures Bounded(Run(Initial(settings), steps).attempts, Some(j), HighestLimit(Initial(settings), steps, j))
  {
    OrderedRunsReviveNothing(settings, steps);
    UnrevivedJobsAreBounded(settings, steps, j);
  }

  /** Marking a permit unknown changes the total only when it was released: then its whole
      reservation counts again although nothing was authorized. */
  lemma {:induction false} MarkUnknownTotal(s: State, a: nat, job: Option<nat>)
    requires a < |s.attempts| && MarkUnknown(s, a).Success? && Funded(s.attempts)
    ensures Total(MarkUnknown(s, a).value.attempts, job) ==
      Total(s.attempts, job) + if Holds(s.attempts[a], PermitState.Released) then
        Exposure(MarkUnknown(s, a).value.attempts[a], job) else 0
  {
    var row := MarkUnknown(s, a).value.attempts[a];
    assert FundedPermit(s.attempts[a].permit.value);
    ReplaceOne(s.attempts, a, row, job);
    if Holds(s.attempts[a], PermitState.Settled) { assert row == s.attempts[a] && s.attempts[a := row] == s.attempts; }
  }

  lemma {:induction false} ReplaceOne(p: seq<AttemptRow>, a: nat, row: AttemptRow, job: Option<nat>)
    requires a < |p|
    ensures Total(p[a := row], job) == Total(p, job) - Exposure(p[a], job) + Exposure(row, job)
  {
    var n := |p| - 1;
    if a == n {
      assert p[a := row][..n] == p[..n];
    } else {
      ReplaceOne(p[..n], a, row, job);
      assert p[a := row][..n] == p[..n][a := row];
    }
  }

  /** A settlement above its reservation. */
  ghost predicate Overspends(s: State, step: Step) {
    && step.SettlePermit? && step.attempt < |s.attempts| && Settle(s, step.attempt, step.usage, step.request).Success?
    && Excess(s.attempts[step.attempt], None) < Excess(Apply(s, step).attempts[step.attempt], None)
  }

  lemma {:induction false} StaysDisabled(s: State, steps: seq<Step>, i: nat, n: nat)
    requires i <= n <= |steps| && Run(s, steps[..i]).settings.dispatchDisabled
    requires forall k :: i <= k < n ==> !Enables(steps[k])
    ensures Run(s, steps[..n]).settings.dispatchDisabled
    decreases n - i
  {
    if i < n {
      StaysDisabled(s, steps, i, n - 1);
      OneMoreStep(s, steps, n);
      StepKeepsSettings(Run(s, steps[..n - 1]), steps[n - 1]);
    }
  }

  /** Between an overrun and the next authorization dispatch was explicitly enabled again. */
  lemma {:induction false} OverrunNeedsReenable(s: State, steps: seq<Step>, i: nat, j: nat)
    requires i < j < |steps|
    requires Overspends(Run(s, steps[..i]), steps[i]) && Authorizes(Run(s, steps[..j]), steps[j])
    ensures exists k :: i < k < j && Enables(steps[k])
  {
    assert steps[..i + 1][..i] == steps[..i];
    assert Run(s, steps[..i + 1]) == Apply(Run(s, steps[..i]), steps[i]);
    assert Run(s, steps[..i + 1]).settings.dispatchDisabled;
    if forall k :: i < k < j ==> !Enables(steps[k]) {
      StaysDisabled(s, steps, i + 1, j);
      assert false;
    }
  }

  /** Usage inside the limits that priced the reservation never switches dispatch off. */
  lemma {:induction false} WithinLimitsNeverDisables(s: State, a: nat, u: Usage, request: Option<string>,
      limits: Limits)
    requires a < |s.attempts| && s.attempts[a].permit.Some? && s.attempts[a].permit.value.price.Some?
    requires var p := s.attempts[a].permit.value; p.reserved == Some(ReserveCost(p.price.value, limits))
    requires u.input <= limits.maxInput && u.output <= limits.maxOutput
    ensures Commit(s, Settle(s, a, Some(u), request)).settings == s.settings
  {
    var p := s.attempts[a].permit.value;
    if ActualCost(p.price, Some(u)).Success? {
      WithinLimitsWithinReserve(p.price.value, u, limits);
    }
  }
}
