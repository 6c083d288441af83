/** The transactions as the source runs them: row by row on mutable tables.
    Query results that the database orders are parameters. */
module Database {
  import opened Wrappers
  import opened Price
  import opened Rows
  import opened Queue
  import opened Ledger
  import opened Executor
  import opened Control
  import opened Deletion

  /** The result of the candidate query: every candidate job once, by rotation key. */
  ghost predicate CandidateQuery(s: State, rows: seq<nat>, sc: Scene) {
    && (forall i :: 0 <= i < |rows| ==> rows[i] < |s.jobs| && Candidate(s, rows[i], sc))
    && (forall j :: 0 <= j < |s.jobs| && Candidate(s, j, sc) ==> j in rows)
    && (forall i, k :: 0 <= i < k < |rows| ==> Before(RotationKey(s, rows[i]), RotationKey(s, rows[k])))
  }

  function Flatten(batches: seq<seq<nat>>): seq<nat> {
    if batches == [] then [] else Flatten(batches[..|batches| - 1]) + batches[|batches| - 1]
  }

  class Tables {
    var jobs: seq<JobRow>
    var tasks: seq<TaskRow>
    var attempts: seq<AttemptRow>
    var settings: SettingsRow
    var deleted: set<nat>

    function View(): State
      reads this
    {
      State(jobs, tasks, attempts, settings, deleted)
    }

    constructor (settings: SettingsRow)
      ensures View() == State([], [], [], settings, {})
    {
      this.jobs, this.tasks, this.attempts, this.settings, this.deleted := [], [], [], settings, {};
    }

    /** The claim loop stops at the first candidate that has a ready task and is not refused. */
    method ChooseJob(candidates: seq<nat>, sc: Scene) returns (chosen: Option<nat>, pending: Option<nat>)
      requires CandidateQuery(View(), candidates, sc)
      ensures chosen == PickJob(View(), |jobs|, sc)
      ensures chosen.Some? ==>
        Pickable(View(), chosen.value, sc) && pending == PickTask(View(), |tasks|, chosen.value, sc)
    {
      var i := 0;
      chosen, pending := None, None;
      while i < |candidates| && chosen.None?
        invariant i <= |candidates|
        invariant chosen.None? ==> forall k :: 0 <= k < i ==> !Pickable(View(), candidates[k], sc)
        invariant chosen.Some? ==> 0 < i && chosen.value == candidates[i - 1] && Pickable(View(), chosen.value, sc)
        invariant chosen.Some? ==> pending == PickTask(View(), |tasks|, chosen.value, sc)
        invariant chosen.Some? ==> forall k :: 0 <= k < i - 1 ==> !Pickable(View(), candidates[k], sc)
      {
        var ready := PickTask(View(), |tasks|, candidates[i], sc);
        if ready.Some? && candidates[i] !in sc.refused {
          chosen, pending := Some(candidates[i]), ready;
        }
        i := i + 1;
      }
      if chosen.None? {
        assert PickJob(View(), |jobs|, sc).None?;
        return;
      }
      ghost var best := PickJob(View(), |jobs|, sc);
      assert best == chosen by {
        assert Pickable(View(), chosen.value, sc) && best.Some?;
        assert best.value in candidates;
      }
    }

    method ClaimNext(candidates: seq<nat>, sc: Scene, seconds: nat) returns (lease: Option<Lease>)
      requires CandidateQuery(View(), candidates, sc)
      modifies this
      ensures match Queue.Claim(old(View()), sc, seconds)
        case None => lease.None? && View() == old(View())
        case Some(r) => lease == Some(r.1) && View() == r.0
    {
      lease := None;
      if settings.maintenance { return; }
      var chosen, pending := ChooseJob(candidates, sc);
      if chosen.None? { return; }
      var j, t := chosen.value, pending.value;
      if Tombstoned(View(), jobs[j]) && tasks[t].kind != "cleanup" { return; }
      tasks := tasks[t := tasks[t].(status := TaskStatus.Leased, fence := tasks[t].fence + 1,
                                    attempts := tasks[t].attempts + 1, expires := sc.now + seconds)];
      jobs := jobs[j := jobs[j].(status := JobStatus.Running)];
      lease := Some(Lease(t, j, |attempts|, tasks[t].fence, jobs[j].epoch));
      attempts := attempts + [AttemptRow(t, j, tasks[t].fence, jobs[j].epoch, sc.now, AttemptState.Created, None, None,
        {}, None)];
    }

    method AssertCurrent(l: Lease, now: nat, memo: set<Lease>, allowPaused: bool, allowPending: bool)
      returns (code: string, memo': set<Lease>)
      requires Issued(View(), l)
      ensures code == CurrentError(View(), l, now, memo,
        RUNNING + (if allowPaused then {JobStatus.Paused} else {}) + (if allowPending then {JobStatus.Pending} else {}))
      ensures memo' == if code == "" then memo + {l} else memo
    {
      var task, job := tasks[l.task], jobs[l.job];
      memo' := memo;
      if settings.maintenance { return "MAINTENANCE", memo; }
      if !(task.fence == l.fence && task.status.Leased? && (l in memo || task.expires > now)) {
        return "FENCE_EXPIRED", memo;
      }
      var allowed := RUNNING;
      if allowPaused { allowed := allowed + {JobStatus.Paused}; }
      if allowPending { allowed := allowed + {JobStatus.Pending}; }
      if !(job.epoch == l.epoch && job.status in allowed) { return "CONTROL_CHANGED", memo; }
      if Tombstoned(View(), job) && task.kind != "cleanup" { return "DOCUMENT_DELETED", memo; }
      code, memo' := "", memo + {l};
    }

    method RenewLease(l: Lease, now: nat, seconds: nat) returns (renewed: bool)
      requires Issued(View(), l)
      modifies this`tasks
      ensures renewed == CanRenew(old(View()), l, now) && View() == Queue.Renew(old(View()), l, now, seconds)
    {
      var task := tasks[l.task];
      if settings.maintenance { return false; }
      if task.fence != l.fence || !task.status.Leased? || task.expires <= now { return false; }
      if jobs[l.job].epoch != l.epoch { return false; }
      tasks := tasks[l.task := task.(expires := now + seconds)];
      renewed := true;
    }

    method FinishTask(l: Lease, now: nat, memo: set<Lease>, status: JobStatus) returns (code: string)
      requires Issued(View(), l)
      modifies this
      ensures match Queue.Finish(old(View()), l, now, memo, status)
        case Failure(e) => code == e && View() == old(View())
        case Success(s) => code == "" && View() == s
    {
      var current, checked := AssertCurrent(l, now, memo, false, true);
      assert RUNNING + {} + {JobStatus.Pending} == {JobStatus.Running, JobStatus.Pending};
      code := current;
      if code != "" { return; }
      tasks := tasks[l.task := tasks[l.task].(status := TaskStatus.Succeeded)];
      if attempts[l.attempt].state.Created? {
        attempts := attempts[l.attempt := attempts[l.attempt].(state := AttemptState.Succeeded)];
      }
      var left := exists t ::
        0 <= t < |tasks| && tasks[t].job == l.job && (tasks[t].status.Pending? || tasks[t].status.Leased?);
      if !left {
        jobs := jobs[l.job := jobs[l.job].(status := status)];
      }
    }

    /** One expired task, inside the recovery transaction. */
    method RecoverOne(t: nat)
      requires t < |tasks| && tasks[t].job < |jobs|
      modifies this
      ensures View() == RecoverTask(old(View()), t)
    {
      var j := tasks[t].job;
      var checkpoint := HasValidatedCheckpoint(View(), t);
      var found := FindAttempt(attempts, t, tasks[t].fence);
      var uncertain := Uncertain(View(), found);
      if found.Some? {
        var a := found.value;
        if attempts[a].state.Created? {
          attempts := attempts[a := attempts[a].(state := AttemptState.Failed)];
        }
        if uncertain {
          attempts := attempts[a := SetPermit(attempts[a], PermitState.Unknown).(state := AttemptState.OutcomeUnknown)];
        }
      }
      var task, job, error := TaskStatus.Pending, jobs[j].status, jobs[j].error;
      if uncertain {
        task, job := TaskStatus.OutcomeUnknown, JobStatus.OutcomeUnknown;
      } else if job.Cancelled? || job.CancelRequested? {
        task := TaskStatus.Cancelled;
      } else if tasks[t].kind == "provider_test" {
        task, job, error := TaskStatus.Failed, JobStatus.Failed, "PROVIDER_TEST_INTERRUPTED";
      } else if checkpoint {
        if job.Running? { job := JobStatus.Pending; }
      } else if tasks[t].attempts >= 3 {
        task, job, error := TaskStatus.Failed, JobStatus.Failed, "ATTEMPT_LIMIT";
      } else if !job.Paused? {
        job := JobStatus.Pending;
      }
      tasks := tasks[t := tasks[t].(status := task)];
      jobs := jobs[j := jobs[j].(status := job, error := error)];
    }

    /** `batches` holds, job by job, the rows the recovery queries return. */
    method RecoverExpiredLeases(now: nat, batches: seq<seq<nat>>)
      modifies this
      ensures View() == Queue.RecoverExpired(old(View()), now, Flatten(batches))
    {
      if settings.maintenance { return; }
      ghost var before := View();
      for i := 0 to |batches|
        invariant View() == RecoverAll(before, now, Flatten(batches[..i]))
      {
        var rows := batches[i];
        assert Flatten(batches[..i]) + rows[..0] == Flatten(batches[..i]);
        for k := 0 to |rows|
          invariant View() == RecoverAll(before, now, Flatten(batches[..i]) + rows[..k])
        {
          RecoverAllLast(before, now, Flatten(batches[..i]) + rows[..k], rows[k]);
          assert Flatten(batches[..i]) + rows[..k + 1] == Flatten(batches[..i]) + rows[..k] + [rows[k]];
          if Expired(View(), rows[k], now) {
            RecoverOne(rows[k]);
          }
        }
        assert rows[..|rows|] == rows && batches[..i + 1][..i] == batches[..i];
      }
      assert batches[..|batches|] == batches;
    }

    method SumBudget(job: Option<nat>, controlledOnly: bool) returns (totals: Totals)
      ensures totals == BudgetTotals(attempts, job, controlledOnly)
    {
      totals := Totals(Some(0), Some(0), Some(0));
      for i := 0 to |attempts|
        invariant totals == BudgetTotals(attempts[..i], job, controlledOnly)
      {
        assert attempts[..i + 1][..i] == attempts[..i];
        var permit := attempts[i].permit;
        if permit.None? || (job.Some? && attempts[i].job != job.value) { continue; }
        if controlledOnly && !permit.value.controlled { continue; }
        match permit.value.state
        case Settled => totals := totals.(actual := Plus(totals.actual, permit.value.actual));
        case Unknown => totals := totals.(unknown := Plus(totals.unknown, permit.value.reserved));
        case Reserved => totals := totals.(reserved := Plus(totals.reserved, permit.value.reserved));
        case Released =>
      }
      assert attempts[..|attempts|] == attempts;
    }

    method CountInFlight() returns (n: nat)
      ensures n == InFlight(attempts)
    {
      n := 0;
      for i := 0 to |attempts|
        invariant n == InFlight(attempts[..i])
      {
        assert attempts[..i + 1][..i] == attempts[..i];
        if Holds(attempts[i], PermitState.Reserved) { n := n + 1; }
      }
      assert attempts[..|attempts|] == attempts;
    }

    /** The refusals of `authorize`, in their order. */
    method CheckDispatch(l: Lease, now: nat, memo: set<Lease>, amount: Option<int>,
        price: Option<PriceSnapshot>, profileCurrent: bool) returns (code: string)
      requires Issued(View(), l)
      ensures code == Ledger.AuthorizeError(View(), l, now, memo, amount, price, profileCurrent)
    {
      var current, checked := AssertCurrent(l, now, memo, false, false);
      assert RUNNING + {} + {} == RUNNING;
      code := current;
      if code != "" { return; }
      var task, job := tasks[l.task], jobs[l.job];
      if settings.dispatchDisabled { return "DISPATCH_DISABLED"; }
      if !job.confirmed { return "EXTERNAL_PROCESSING_UNCONFIRMED"; }
      var profile := job.profile;
      if task.preparation && job.localPreparation {
        if !profileCurrent { return "PROVIDER_PROFILE_STALE"; }
        profile := job.analysis;
      }
      if profile.price != price { return "PRICE_SNAPSHOT_STALE"; }
      if profile.controlled && PriceError(price) != "" { return PriceError(price); }
      if !BoundGiven(profile.controlled, amount, price) { return "PRICE_BOUND_REQUIRED"; }
      if attempts[l.attempt].permit.Some? { return "DISPATCH_ALREADY_AUTHORIZED"; }
      var active := CountInFlight();
      if active >= settings.concurrency { return "INSTANCE_CONCURRENCY_LIMIT"; }
      if profile.controlled {
        var instance := SumBudget(None, true);
        var own := SumBudget(Some(l.job), true);
        if !WithinBudget(Some(settings.instanceBudget), instance, amount.value)
            || !WithinBudget(job.budget, own, amount.value) {
          return "BUDGET_PAUSED";
        }
      }
      if !attempts[l.attempt].state.Created? { return "ATTEMPT_ALREADY_SENT"; }
    }

    method AuthorizeDispatch(l: Lease, now: nat, memo: set<Lease>, amount: Option<int>,
        price: Option<PriceSnapshot>, profileCurrent: bool) returns (code: string)
      requires Issued(View(), l)
      modifies this`attempts
      ensures match Ledger.Authorize(old(View()), l, now, memo, amount, price, profileCurrent)
        case Failure(e) => code == e && View() == old(View())
        case Success(s) => code == "" && View() == s
    {
      code := CheckDispatch(l, now, memo, amount, price, profileCurrent);
      if code != "" { return; }
      var task, job := tasks[l.task], jobs[l.job];
      var profile := if task.preparation && job.localPreparation then job.analysis else job.profile;
      var attempt := attempts[l.attempt];
      attempts := attempts[l.attempt := attempt.(state := AttemptState.Dispatching,
        permit := Some(Permit(PermitState.Reserved, price, profile.controlled, amount, None)))];
    }

    method MarkUncertain(a: nat) returns (code: string)
      requires a < |attempts|
      modifies this`attempts
      ensures match Ledger.MarkUnknown(old(View()), a)
        case Failure(e) => code == e && View() == old(View())
        case Success(s) => code == "" && View() == s
    {
      var permit := attempts[a].permit;
      if permit.None? { return "PERMIT_MISSING"; }
      if permit.value.state.Settled? { return ""; }
      attempts := attempts[a := attempts[a].(state := AttemptState.OutcomeUnknown,
        permit := Some(permit.value.(state := PermitState.Unknown)))];
      code := "";
    }

    method Release(a: nat) returns (code: string)
      requires a < |attempts|
      modifies this`attempts
      ensures match Ledger.ReleaseUnsent(old(View()), a)
        case Failure(e) => code == e && View() == old(View())
        case Success(s) => code == "" && View() == s
    {
      var permit := attempts[a].permit;
      if permit.None? || !permit.value.state.Reserved? { return "PERMIT_NOT_RESERVED"; }
      attempts := attempts[a := attempts[a].(state := AttemptState.NotExecuted,
        permit := Some(permit.value.(state := PermitState.Released)))];
      code := "";
    }

    method SettlePermit(a: nat, usage: Option<Usage>, request: Option<string>) returns (code: string)
      requires a < |attempts|
      modifies this`attempts, this`settings
      ensures match Ledger.Settle(old(View()), a, usage, request)
        case Failure(e) => code == e && View() == old(View())
        case Success(s) => code == "" && View() == s
    {
      var attempt := attempts[a];
      if attempt.permit.None? { return "PERMIT_MISSING"; }
      var permit := attempt.permit.value;
      var priced := ActualCost(permit.price, usage);
      var cost := None;
      if priced.Success? { cost := Some(priced.value); }
      else if permit.controlled { return priced.error; }
      if permit.state.Settled? {
        if attempt.usage == usage && attempt.request == request && permit.actual == cost { return ""; }
        return "USAGE_EVIDENCE_CONFLICT";
      }
      if !(permit.state.Reserved? || permit.state.Unknown?) { return "PERMIT_NOT_SETTLEABLE"; }
      attempts := attempts[a := attempt.(state := AttemptState.Settled, usage := usage, request := request,
        permit := Some(permit.(state := PermitState.Settled, actual := cost)))];
      if permit.controlled && permit.reserved.Some? && cost.value > permit.reserved.value
          && !settings.dispatchDisabled {
        settings := settings.(dispatchDisabled := true);
      }
      code := "";
    }

    /** The failure branch of the worker. */
    method FailTask(l: Lease, code: string)
      requires Issued(View(), l)
      modifies this
      ensures View() == Executor.FailExecution(old(View()), l, code)
    {
      var task, job, attempt := tasks[l.task], jobs[l.job], attempts[l.attempt];
      if !(task.fence == l.fence && task.status.Leased? && job.epoch == l.epoch) { return; }
      var permit := attempt.permit;
      if permit.Some? && (permit.value.state.Reserved? || permit.value.state.Unknown?) {
        attempts := attempts[l.attempt := attempt.(state := AttemptState.OutcomeUnknown,
          permit := Some(permit.value.(state := PermitState.Unknown)))];
        tasks := tasks[l.task := task.(status := TaskStatus.OutcomeUnknown)];
        jobs := jobs[l.job := job.(status := JobStatus.OutcomeUnknown)];
      } else if code == "CONTROL_CHANGED" && YieldsTo(job.status) {
        tasks := tasks[l.task := task.(status := TaskStatus.Pending)];
        if permit.None? {
          tasks := tasks[l.task := tasks[l.task].(attempts := if task.attempts == 0 then 0 else task.attempts - 1)];
          attempts := attempts[l.attempt := attempt.(state := AttemptState.NotExecuted)];
        }
        return;
      } else {
        tasks := tasks[l.task := task.(status := TaskStatus.Failed)];
        jobs := jobs[l.job := job.(status := JobStatus.Failed)];
        if attempt.state.Created? {
          attempts := attempts[l.attempt := attempt.(state := AttemptState.KnownFailed)];
        }
      }
      jobs := jobs[l.job := jobs[l.job].(error := code)];
    }

    method ControlCommand(j: nat, action: Action) returns (code: string)
      requires j < |jobs|
      modifies this`jobs
      ensures match Control.ControlJob(old(View()), j, action)
        case Failure(e) => code == e && View() == old(View())
        case Success(s) => code == "" && View() == s
      ensures code == "" && !action.Resume? ==> old(jobs[j]).epoch < jobs[j].epoch && !jobs[j].status.Running?
      ensures code == "" && action.Resume? ==> jobs[j].status.Pending? && !HasUnknownPermit(View(), j)
    {
      var job := jobs[j];
      if settings.maintenance { return "MAINTENANCE"; }
      if Tombstoned(View(), job) { return "DOCUMENT_DELETED"; }
      if Terminal(job.status) { return "JOB_TERMINAL"; }
      if job.stage in {"prepare_parser_model", "prepare_local_model"} && job.status.Running? {
        return "MODEL_PREPARATION_IN_PROGRESS";
      }
      if action.Resume? {
        if job.superseded { return "SOURCE_STALE"; }
        if !(job.status.Paused? || job.status.WaitingConfig? || job.status.WaitingBudget?) {
          return "JOB_NOT_RESUMABLE";
        }
        if HasUnknownPermit(View(), j) { return "OUTCOME_UNKNOWN"; }
        jobs := jobs[j := job.(status := JobStatus.Pending)];
      } else {
        jobs := jobs[j := job.(epoch := job.epoch + 1)];
        jobs := jobs[j := jobs[j].(status := if action.Pause? then JobStatus.Paused else JobStatus.Cancelled)];
      }
      code := "";
    }

    method Resolve(a: nat, decision: Decision, budget: Option<int>, riskConfirmed: bool) returns (code: string)
      requires a < |attempts| && attempts[a].job < |jobs| && attempts[a].task < |tasks|
      modifies this`jobs, this`tasks
      ensures match Control.ResolveAttempt(old(View()), a, decision, budget, riskConfirmed)
        case Failure(e) => code == e && View() == old(View())
        case Success(s) => code == "" && View() == s
    {
      var j, t := attempts[a].job, attempts[a].task;
      code := ResolveError(View(), a, decision, budget, riskConfirmed);
      if code != "" { return; }
      match decision
      case RecordEvidence =>
      case Stop => jobs := jobs[j := jobs[j].(status := JobStatus.Cancelled, epoch := jobs[j].epoch + 1)];
      case RetryAcceptRisk =>
        tasks := tasks[t := tasks[t].(status := TaskStatus.Pending)];
        jobs := jobs[j := jobs[j].(status := JobStatus.Pending,
          budget := if jobs[j].profile.controlled then budget else None)];
    }

    method SetMaintenanceMode(enabled: bool, dispatchDisabled: bool)
      modifies this
      ensures View() == Control.SetMaintenance(old(View()), enabled, dispatchDisabled)
    {
      settings := settings.(maintenance := enabled, dispatchDisabled := dispatchDisabled);
      if !enabled { return; }
      ghost var before := View();
      for i := 0 to |attempts|
        invariant |attempts| == |before.attempts| && View() == UncertainInflight(before, i)
      {
        var row := attempts[i];
        if Holds(row, PermitState.Reserved) && row.task < |tasks| && row.job < |jobs| {
          attempts := attempts[i := row.(state := AttemptState.OutcomeUnknown,
            permit := Some(row.permit.value.(state := PermitState.Unknown)))];
          tasks := tasks[row.task := tasks[row.task].(status := TaskStatus.OutcomeUnknown)];
          jobs := jobs[row.job := jobs[row.job].(status := JobStatus.OutcomeUnknown, epoch := jobs[row.job].epoch + 1)];
        }
      }
    }

    /** `wait_without_dispatch`: the lease is given back before anything was sent. */
    method GiveBack(l: Lease, now: nat, memo: set<Lease>, reason: string) returns (code: string)
      requires Issued(View(), l)
      modifies this
      ensures match Executor.WaitWithoutDispatch(old(View()), l, now, memo, reason)
        case Failure(e) => code == e && View() == old(View())
        case Success(s) => code == "" && View() == s
    {
      var current, checked := AssertCurrent(l, now, memo, false, false);
      assert RUNNING + {} + {} == RUNNING;
      code := current;
      if code != "" { return; }
      var task := tasks[l.task];
      tasks := tasks[l.task := task.(status := TaskStatus.Pending, availableAt := now + 2,
                                     attempts := if task.attempts == 0 then 0 else task.attempts - 1)];
      attempts := attempts[l.attempt := attempts[l.attempt].(state := AttemptState.NotExecuted)];
      var status := JobStatus.WaitingConfig;
      if reason == "INSTANCE_CONCURRENCY_LIMIT" { status := JobStatus.Pending; }
      else if reason == "BUDGET_PAUSED" { status := JobStatus.WaitingBudget; }
      jobs := jobs[l.job := jobs[l.job].(status := status, error := reason)];
    }

    method BookTest(a: nat, outcome: Option<Outcome>) returns (code: string)
      requires a < |attempts|
      modifies this`attempts
      ensures match Executor.ClassifyTest(old(View()), a, outcome)
        case Failure(e) => code == e && View() == old(View())
        case Success(s) => code == "" && View() == s
    {
      code := "";
      if outcome == Some(Outcome.Unknown) { code := MarkUncertain(a); }
      else if outcome == Some(Outcome.NotSent) || outcome == Some(Outcome.NotExecuted) { code := Release(a); }
    }

    /** `stop` of a connection test; a failure after the first write rolls it back. */
    method StopTest(l: Lease, now: nat, memo: set<Lease>, reason: string,
        outcome: Option<Outcome>) returns (code: string)
      requires Issued(View(), l)
      modifies this
      ensures match Executor.StopTest(old(View()), l, now, memo, reason, outcome)
        case Failure(e) => code == e && View() == old(View())
        case Success(s) => code == "" && View() == s
    {
      var saved := attempts;
      code := BookTest(l.attempt, outcome);
      if code != "" { return; }
      var current, checked := AssertCurrent(l, now, memo, false, false);
      assert RUNNING + {} + {} == RUNNING;
      if current == "CONTROL_CHANGED" || current == "FENCE_EXPIRED" { return; }
      if current != "" {
        attempts := saved;
        return current;
      }
      CloseTest(l, reason, outcome == Some(Outcome.Unknown));
    }

    method CloseTest(l: Lease, reason: string, unknown: bool)
      requires Issued(View(), l)
      modifies this`tasks, this`jobs
      ensures tasks ==
        old(tasks)[l.task := old(tasks[l.task]).(status := if unknown then TaskStatus.OutcomeUnknown
          else TaskStatus.Failed)]
      ensures jobs == old(jobs)[l.job :=
        old(jobs[l.job]).(status := if unknown then JobStatus.OutcomeUnknown else JobStatus.Failed, error := reason)]
    {
      tasks := tasks[l.task := tasks[l.task].(status := if unknown then TaskStatus.OutcomeUnknown
        else TaskStatus.Failed)];
      jobs := jobs[l.job := jobs[l.job].(status := if unknown then JobStatus.OutcomeUnknown else JobStatus.Failed)];
      jobs := jobs[l.job := jobs[l.job].(error := reason)];
    }

    /** The money part of `retry_or_stop`, first of all. */
    method BookOutcome(a: nat, outcome: Outcome) returns (code: string)
      requires a < |attempts|
      modifies this`attempts
      ensures match Executor.Classify(old(View()), a, outcome)
        case Failure(e) => code == e && View() == old(View())
        case Success(s) => code == "" && View() == s
    {
      code := "";
      if outcome.Unknown? { code := MarkUncertain(a); }
      else if !outcome.ExecutedInvalid? && attempts[a].permit.Some? { code := Release(a); }
    }

    /** The branches of `retry_or_stop` once its lease still counts. */
    method NextRow(task: TaskRow, outcome: Outcome, reason: string, now: nat, delay: nat,
        repaired: Option<string>, finalized: Summary) returns (row: TaskRow, status: JobStatus)
      ensures row == RetryTask(task, outcome, reason, now, delay, repaired)
      ensures status == RetryJob(row, outcome, reason, finalized)
    {
      row, status := task, JobStatus.Pending;
      if outcome.Unknown? {
        row, status := task.(status := TaskStatus.OutcomeUnknown), JobStatus.OutcomeUnknown;
      } else if reason in {"PROVIDER_CONFIG", "PROVIDER_UNSUPPORTED_RESPONSE"} {
        row, status := task.(status := TaskStatus.Failed), JobStatus.WaitingConfig;
      } else if reason in {"PROVIDER_REFUSAL", "UNIT_TOO_LARGE"} {
        row := task.(status := TaskStatus.Failed);
      } else if (outcome.NotSent? || outcome.NotExecuted?) && task.attempts < 3 {
        row := task.(status := TaskStatus.Pending, availableAt := now + delay);
      } else if outcome.ExecutedInvalid? && task.repairs < 1 && task.attempts < 3 {
        row := task.(status := TaskStatus.Pending, availableAt := now + 2, repairs := task.repairs + 1,
          work := repaired);
      } else {
        row := task.(status := TaskStatus.Failed);
      }
      if row.status.Failed? && status.Pending? {
        if row.preparation { status := JobStatus.Failed; }
        else if row.kind in {"translate", "candidate", "semantic_review"} { status := finalized; }
      }
    }

    /** `retry_or_stop`: first the money, then, if the lease still counts, the task and its job. */
    method RetryOrStop(l: Lease, reported: Outcome, reason: string, now: nat, delay: nat,
        repaired: Option<string>, finalized: Summary) returns (code: string)
      requires Issued(View(), l)
      modifies this
      ensures match Executor.RetryOrStop(old(View()), l, reported, reason, now, delay, repaired, finalized)
        case Failure(e) => code == e && View() == old(View())
        case Success(s) => code == "" && View() == s
    {
      var outcome := reported;
      if outcome.ExecutedInvalid? && Holds(attempts[l.attempt], PermitState.Reserved) { outcome := Outcome.Unknown; }
      code := BookOutcome(l.attempt, outcome);
      if code != "" { return; }
      var task, job := tasks[l.task], jobs[l.job];
      if Tombstoned(View(), job) || task.fence != l.fence || job.epoch != l.epoch { return; }
      var row, status := NextRow(task, outcome, reason, now, delay, repaired, finalized);
      CloseAttempt(l, row, status, reason);
    }

    method CloseAttempt(l: Lease, row: TaskRow, status: JobStatus, reason: string)
      requires Issued(View(), l)
      modifies this`attempts, this`tasks, this`jobs
      ensures tasks == old(tasks)[l.task := row]
      ensures jobs == old(jobs)[l.job := old(jobs[l.job]).(status := status, error := reason)]
      ensures attempts == var a := old(attempts[l.attempt]);
        if a.state.Created? then old(attempts)[l.attempt := a.(state := AttemptState.Failed)] else old(attempts)
    {
      if attempts[l.attempt].state.Created? {
        attempts := attempts[l.attempt := attempts[l.attempt].(state := AttemptState.Failed)];
      }
      tasks := tasks[l.task := row];
      jobs := jobs[l.job := jobs[l.job].(status := status, error := reason)];
    }

    method UpdateDispatchSwitch(disabled: bool, riskAccepted: bool) returns (code: string)
      modifies this`settings
      ensures match Ledger.UpdateDispatch(old(View()), disabled, riskAccepted)
        case Failure(e) => code == e && View() == old(View())
        case Success(s) => code == "" && View() == s
    {
      if settings.maintenance { return "MAINTENANCE"; }
      if !disabled && !riskAccepted && exists a :: 0 <= a < |attempts| && Holds(attempts[a], PermitState.Unknown) {
        return "UNRESOLVED_BILLING_RISK";
      }
      settings := settings.(dispatchDisabled := disabled);
      code := "";
    }

    /** The rows of a document's jobs are rewritten one by one, then its cleanup is queued. */
    method DeleteDocument(d: nat, now: nat) returns (code: string)
      modifies this
      ensures match Deletion.DeleteDocument(old(View()), d, now)
        case Failure(e) => code == e && View() == old(View())
        case Success(s) => code == "" && View() == s
    {
      if settings.maintenance { return "MAINTENANCE"; }
      if d in deleted { return "DOCUMENT_DELETED"; }
      deleted := deleted + {d};
      ghost var before := jobs;
      for j := 0 to |jobs|
        invariant |jobs| == |before|
        invariant forall k :: 0 <= k < j ==> jobs[k] == TombstoneJob(before[k], d)
        invariant forall k :: j <= k < |jobs| ==> jobs[k] == before[k]
        invariant tasks == old(tasks) && attempts == old(attempts) && settings == old(settings)
        invariant deleted == old(deleted) + {d}
      {
        if jobs[j].document == Some(d) {
          jobs := jobs[j := jobs[j].(epoch := jobs[j].epoch + 1)];
          if !Terminal(jobs[j].status) { jobs := jobs[j := jobs[j].(status := JobStatus.Cancelled)]; }
        }
      }
      assert jobs == Tombstone(old(View()), d).jobs;
      tasks := tasks + [CleanupTask(|jobs|, now)];
      jobs := jobs + [CleanupJob(d, now)];
      code := "";
    }

    method ReplaceSource(d: nat) returns (code: string)
      modifies this`jobs
      ensures match Deletion.ReplaceSource(old(View()), d)
        case Failure(e) => code == e && View() == old(View())
        case Success(s) => code == "" && View() == s
    {
      if settings.maintenance { return "MAINTENANCE"; }
      if d in deleted { return "DOCUMENT_DELETED"; }
      ghost var before := jobs;
      for j := 0 to |jobs|
        invariant |jobs| == |before|
        invariant forall k :: 0 <= k < j ==> jobs[k] == ReplaceJob(before[k], d)
        invariant forall k :: j <= k < |jobs| ==> jobs[k] == before[k]
      {
        var job := jobs[j];
        if job.document == Some(d) && job.stage !in {"export", "index", "cleanup"} && !Terminal(job.status) {
          jobs := jobs[j := job.(epoch := job.epoch + 1, superseded := true)];
          if !job.status.OutcomeUnknown? { jobs := jobs[j := jobs[j].(status := JobStatus.Cancelled)]; }
        }
      }
      code := "";
    }

    /** The tasks of one job, inside the cleanup. */
    method EraseTasks(j: nat, d: nat, keep: nat)
      requires j < |jobs| && jobs[j].document == Some(d)
      modifies this`tasks
      ensures |tasks| == old(|tasks|)
      ensures forall t :: 0 <= t < |tasks| ==>
        tasks[t] == if old(tasks[t]).job == j then EraseTask(old(View()), t, d, keep) else old(tasks[t])
    {
      ghost var before := View();
      for i := 0 to |tasks|
        invariant |tasks| == |before.tasks|
        invariant forall t :: 0 <= t < i ==>
          tasks[t] == if before.tasks[t].job == j then EraseTask(before, t, d, keep) else before.tasks[t]
        invariant forall t :: i <= t < |tasks| ==> tasks[t] == before.tasks[t]
      {
        if tasks[i].job == j {
          tasks := tasks[i := tasks[i].(preparation := false, repairs := 0, work := None)];
          if i != keep && !tasks[i].status.Succeeded? && !tasks[i].status.Failed? {
            tasks := tasks[i := tasks[i].(status := TaskStatus.Cancelled)];
          }
        }
      }
    }

    /** Every job of the document and every task of each. */
    method EraseContent(d: nat, keep: nat)
      modifies this`jobs, this`tasks
      ensures View() == Erase(old(View()), d, keep)
    {
      ghost var before := View();
      for j := 0 to |jobs|
        invariant |jobs| == |before.jobs| && |tasks| == |before.tasks|
        invariant forall k :: 0 <= k < |jobs| ==>
          jobs[k] == if k < j then EraseJob(before.jobs[k], d) else before.jobs[k]
        invariant forall t :: 0 <= t < |tasks| ==>
          tasks[t] == if before.tasks[t].job < j then EraseTask(before, t, d, keep) else before.tasks[t]
      {
        if jobs[j].document == Some(d) {
          jobs := jobs[j := jobs[j].(profile := ERASED, analysis := ERASED, localPreparation := false,
                                     savedRevision := false, confirmed := false)];
          EraseTasks(j, d, keep);
        }
      }
      assert tasks == Erase(before, d, keep).tasks;
    }

    method CleanupDocument(l: Lease, now: nat) returns (code: string)
      requires Issued(View(), l)
      modifies this
      ensures match Deletion.CleanupDocument(old(View()), l, now)
        case Failure(e) => code == e && View() == old(View())
        case Success(s) => code == "" && View() == s
    {
      var current, checked := AssertCurrent(l, now, {}, false, false);
      assert RUNNING + {} + {} == RUNNING && {} + {l} == {l};
      code := current;
      if code != "" { return; }
      if !Tombstoned(View(), jobs[l.job]) { return "TOMBSTONE_REQUIRED"; }
      EraseContent(jobs[l.job].document.value, l.task);
      code := FinishTask(l, now, checked, JobStatus.Ended("succeeded"));
    }
  }
}
