/** What the lease transactions achieve, in time and for the unit of work. */
module Leasing {
  import opened Wrappers
  import opened Rows
  import opened Queue
  import opened Executor
  import opened Steps

  /** The check passes exactly for the newest lease of a running unit: not in maintenance, of the job's epoch
      and an allowed job state, before its expiry unless this transaction checked it already, and for a
      deleted document only to clean it up. */
  lemma {:induction false} CheckIsExact(s: State, l: Lease, now: nat, memo: set<Lease>, allowed: set<JobStatus>)
    requires Issued(s, l)
    ensures CurrentError(s, l, now, memo, allowed) == "" <==>
      && !s.settings.maintenance && s.tasks[l.task].status.Leased? && s.tasks[l.task].fence == l.fence
      && (l in memo || now < s.tasks[l.task].expires)
      && s.jobs[l.job].epoch == l.epoch && s.jobs[l.job].status in allowed
      && (Tombstoned(s, s.jobs[l.job]) ==> s.tasks[l.task].kind == "cleanup")
  {}

  /** The lease is good until `end` and recoverable from then on. */
  ghost predicate LastsUntil(s: State, l: Lease, end: nat) {
    && Issued(s, l)
    && (forall now: nat, memo :: now < end ==> CurrentError(s, l, now, memo, RUNNING) == "")
    && (forall now: nat :: now < end ==> CanRenew(s, l, now) && !Expired(s, l.task, now))
    && (forall now: nat :: end <= now ==> !CanRenew(s, l, now) && Expired(s, l.task, now))
    && (forall now: nat :: end <= now ==> CurrentError(s, l, now, {}, RUNNING) == "FENCE_EXPIRED")
  }

  /** A claimed lease lasts for exactly the given seconds, and counts as one attempt. */
  lemma {:induction false} ClaimLasts(s: State, scene: Scene, seconds: nat)
    requires Claim(s, scene, seconds).Some?
    ensures var (r, l) := Claim(s, scene, seconds).value;
      && LastsUntil(r, l, scene.now + seconds)
      && l.task < |s.tasks| && r.tasks[l.task].attempts == s.tasks[l.task].attempts + 1
  {}

  /** The job may run: it is waiting in the queue or running, or it is one an older worker stopped over a
      changed profile and whose saved settings still apply. */
  ghost predicate MayRun(job: JobRow) {
    || job.status == JobStatus.Pending || job.status == JobStatus.Running
    || (job.status == JobStatus.WaitingConfig && job.error == "PROVIDER_PROFILE_STALE" && job.savedRevision
        && (job.stage == "translate" || job.stage == "translating" || job.stage == "candidate"
            || job.stage == "semantic_review"))
  }

  /** A unit of the job that waits, is due, and that no other transaction holds. */
  ghost predicate Takable(s: State, t: nat, j: nat, scene: Scene)
    requires t < |s.tasks|
  {
    && s.tasks[t].job == j && s.tasks[t].status == TaskStatus.Pending && s.tasks[t].availableAt <= scene.now
    && t !in scene.lockedTasks
  }

  /** A job the claim may stop at. */
  ghost predicate Eligible(s: State, j: nat, scene: Scene)
    requires j < |s.jobs|
  {
    && MayRun(s.jobs[j]) && j !in scene.lockedJobs && j !in scene.refused
    && exists t :: 0 <= t < |s.tasks| && Takable(s, t, j, scene)
  }

  /** A claim takes the oldest takable unit of an eligible job, the one that has waited
      longest since its last claim; without an eligible job nothing is claimed. */
  lemma {:induction false} ClaimedUnit(s: State, scene: Scene, seconds: nat)
    ensures Claim(s, scene, seconds).Some? ==>
      var l := Claim(s, scene, seconds).value.1;
      && l.job < |s.jobs| && Eligible(s, l.job, scene) && l.task < |s.tasks| && Takable(s, l.task, l.job, scene)
      && (forall t :: 0 <= t < |s.tasks| && Takable(s, t, l.job, scene) ==>
        s.tasks[l.task].createdAt <= s.tasks[t].createdAt)
      && (forall j, at, other | 0 <= j < |s.jobs| && j != l.job && Eligible(s, j, scene)
            && LastTurn(s, l.job, at) && LastTurn(s, j, other) :: Earlier(s, l.job, at, j, other))
    ensures Claim(s, scene, seconds).None? ==>
      || s.settings.maintenance
      || (forall j :: 0 <= j < |s.jobs| ==> !Eligible(s, j, scene))
      || exists j :: 0 <= j < |s.jobs| && Eligible(s, j, scene) && Tombstoned(s, s.jobs[j])
  {
    forall j | 0 <= j < |s.jobs| ensures Eligible(s, j, scene) <==> Pickable(s, j, scene) {
      SameUnits(s, j, scene);
    }
    if Claim(s, scene, seconds).Some? {
      var l := Claim(s, scene, seconds).value.1;
      forall t | 0 <= t < |s.tasks| && Takable(s, t, l.job, scene)
        ensures s.tasks[l.task].createdAt <= s.tasks[t].createdAt
      {
        assert Ready(s, t, l.job, scene);
      }
      forall j, at, other | 0 <= j < |s.jobs| && j != l.job && Eligible(s, j, scene) && LastTurn(s, l.job, at)
        && LastTurn(s, j, other) ensures Earlier(s, l.job, at, j, other)
      {
        LastTurnIsKey(s, j, other);
        LastTurnIsKey(s, l.job, at);
      }
    }
  }

  lemma {:induction false} SameUnits(s: State, j: nat, scene: Scene)
    requires j < |s.jobs|
    ensures Eligible(s, j, scene) <==> Pickable(s, j, scene)
  {
    forall t | 0 <= t < |s.tasks| ensures Takable(s, t, j, scene) <==> Ready(s, t, j, scene) {}
  }

  /** The job was last claimed then, or created then and never claimed. */
  ghost predicate LastTurn(s: State, j: nat, at: nat)
    requires j < |s.jobs|
  {
    && (forall a :: 0 <= a < |s.attempts| && s.attempts[a].job == j ==> s.attempts[a].createdAt <= at)
    && if exists a :: 0 <= a < |s.attempts| && s.attempts[a].job == j
       then exists a :: 0 <= a < |s.attempts| && s.attempts[a].job == j && s.attempts[a].createdAt == at
       else at == s.jobs[j].createdAt
  }

  /** Turn by turn, then by creation, then by identifier. */
  predicate Earlier(s: State, j: nat, at: nat, k: nat, other: nat)
    requires j < |s.jobs| && k < |s.jobs|
  {
    at < other || (at == other && (s.jobs[j].createdAt < s.jobs[k].createdAt
      || (s.jobs[j].createdAt == s.jobs[k].createdAt && j < k)))
  }

  lemma {:induction false} LastTurnIsKey(s: State, j: nat, at: nat)
    requires j < |s.jobs| && LastTurn(s, j, at)
    ensures RotationKey(s, j) == Key(at, s.jobs[j].createdAt, j)
  {
    var last := LastClaim(s.attempts, j);
    if last.None? { assert forall a :: 0 <= a < |s.attempts| ==> s.attempts[a].job != j; }
  }

  /** A renewal gives a live lease exactly the given seconds from now, and changes nothing else. */
  lemma {:induction false} RenewalLasts(s: State, l: Lease, now: nat, seconds: nat)
    requires Issued(s, l) && CanRenew(s, l, now) && s.jobs[l.job].status.Running? && s.tasks[l.task].job == l.job
    requires Tombstoned(s, s.jobs[l.job]) ==> s.tasks[l.task].kind == "cleanup"
    ensures LastsUntil(Queue.Renew(s, l, now, seconds), l, now + seconds)
    ensures Queue.Renew(s, l, now, seconds) ==
      s.(tasks := s.tasks[l.task := s.tasks[l.task].(expires := now + seconds)])
  {}

  /** A refused renewal changes nothing; it is refused exactly in maintenance, for an expired or replaced
      lease, or one whose job moved on. */
  lemma {:induction false} RenewalIsExact(s: State, l: Lease, now: nat, seconds: nat)
    requires Issued(s, l)
    ensures CanRenew(s, l, now) <==>
      && !s.settings.maintenance && s.tasks[l.task].status.Leased? && s.tasks[l.task].fence == l.fence
      && now < s.tasks[l.task].expires && s.jobs[l.job].epoch == l.epoch
    ensures !CanRenew(s, l, now) ==> Queue.Renew(s, l, now, seconds) == s
  {}

  /** Recovery at any time before the expiry, in any order of rows, leaves the unit to its worker. */
  lemma {:induction false} RecoveryWaits(s: State, now: nat, order: seq<nat>, t: nat)
    requires t < |s.tasks| && !Expired(s, t, now)
    ensures |RecoverAll(s, now, order).tasks| == |s.tasks| && RecoverAll(s, now, order).tasks[t] == s.tasks[t]
    decreases |order|
  {
    if order != [] {
      if Expired(s, order[0], now) { RecoverTaskRows(s, order[0]); }
      RecoveryWaits(if Expired(s, order[0], now) then RecoverTask(s, order[0]) else s, now, order[1..], t);
    }
  }

  /** Where exactly recovery leaves an expired unit: uncertain with an open request; cancelled with its job;
      back in the queue if it may be tried again or its answer is already validated; failed otherwise. */
  lemma {:induction false} RecoveredUnit(s: State, t: nat)
    requires t < |s.tasks| && s.tasks[t].job < |s.jobs|
    ensures var task, job := s.tasks[t], s.jobs[s.tasks[t].job];
      var open, stopped := Uncertain(s,
        FindAttempt(s.attempts, t, task.fence)), job.status.Cancelled? || job.status.CancelRequested?;
      var again := task.kind != "provider_test" && (task.attempts < 3 || HasValidatedCheckpoint(s, t));
      var status := RecoverTask(s, t).tasks[t].status;
      && (status.OutcomeUnknown? <==> open) && (status.Cancelled? <==> !open && stopped)
      && (status.Pending? <==> !open && !stopped && again) && (status.Failed? <==> !open && !stopped && !again)
  {}

  /** And its job: uncertain with an open request; as it was when it was cancelled; failed, with the reason, when
      the unit failed; otherwise back in the queue, unless it is paused or something else stopped it while the
      answer was already validated. Nothing else about the job changes, and no other job. */
  lemma {:induction false} RecoveredJob(s: State, t: nat)
    requires t < |s.tasks| && s.tasks[t].job < |s.jobs|
    ensures var task, job, r := s.tasks[t], s.jobs[s.tasks[t].job], RecoverTask(s, t);
      var after := r.tasks[t].status;
      var now := r.jobs[task.job];
      && r.jobs == s.jobs[task.job := job.(status := now.status, error := now.error)]
      && (after.OutcomeUnknown? ==> now.status.OutcomeUnknown? && now.error == job.error)
      && (after.Cancelled? ==> now == job)
      && (after.Failed? ==> now.status.Failed?)
      && (after.Failed? ==>
           now.error == if task.kind == "provider_test" then "PROVIDER_TEST_INTERRUPTED" else "ATTEMPT_LIMIT")
      && (after.Pending? ==> now.error == job.error)
      && (after.Pending? && (job.status.Running? || job.status.Pending?) ==> now.status.Pending?)
      && (after.Pending? && job.status.Paused? ==> now.status.Paused?)
      && (after.Pending? && HasValidatedCheckpoint(s, t) && !job.status.Running? ==> now.status == job.status)
      && (after.Pending? && !HasValidatedCheckpoint(s, t) && !job.status.Paused? ==> now.status.Pending?)
  {}

  /** Its newest attempt: an open request becomes uncertain, one that sent nothing has failed, anything else and
      every other attempt stay. */
  lemma {:induction false} RecoveredAttempt(s: State, t: nat)
    requires t < |s.tasks| && s.tasks[t].job < |s.jobs|
    ensures var found, r := FindAttempt(s.attempts, t, s.tasks[t].fence), RecoverTask(s, t);
      && |r.attempts| == |s.attempts|
      && (forall a :: 0 <= a < |s.attempts| && found != Some(a) ==> r.attempts[a] == s.attempts[a])
      && (found.Some? ==>
           var a, b := s.attempts[found.value], r.attempts[found.value];
           if Uncertain(s, found) then
             b == a.(state := AttemptState.OutcomeUnknown, permit := b.permit) && Holds(b, PermitState.Unknown)
           else b == a.(state := if a.state.Created? then AttemptState.Failed else a.state))
  {}

  /** A finished unit is done, and its job ends in the given state exactly when no other unit of it is
      waiting or running. */
  lemma {:induction false} FinishedUnit(s: State, l: Lease, now: nat, memo: set<Lease>, status: JobStatus)
    requires Issued(s, l) && Queue.Finish(s, l, now, memo, status).Success?
    ensures var r := Queue.Finish(s, l, now, memo, status).value;
      && r == s.(tasks := s.tasks[l.task := s.tasks[l.task].(status := TaskStatus.Succeeded)],
           attempts := r.attempts, jobs := r.jobs)
      && r.jobs == s.jobs[l.job := s.jobs[l.job].(status := r.jobs[l.job].status)]
      && r.jobs[l.job].status == (if OthersRemain(s, l) then s.jobs[l.job].status else status)
      && r.attempts == s.attempts[l.attempt := s.attempts[l.attempt].(state := r.attempts[l.attempt].state)]
      && r.attempts[l.attempt].state ==
           (if s.attempts[l.attempt].state.Created? then AttemptState.Succeeded else s.attempts[l.attempt].state)
  {
    var r := Queue.Finish(s, l, now, memo, status).value;
    var s1 := s.(tasks := s.tasks[l.task := s.tasks[l.task].(status := TaskStatus.Succeeded)]);
    if OthersRemain(s, l) {
      var t :| 0 <= t < |s.tasks| && t != l.task && s.tasks[t].job == l.job
        && (s.tasks[t].status.Pending? || s.tasks[t].status.Leased?);
      assert r.tasks[t] == s1.tasks[t] == s.tasks[t];
    }
    if Unfinished(s1, l.job) {
      var t :| 0 <= t < |s1.tasks| && s1.tasks[t].job == l.job
        && (s1.tasks[t].status.Pending? || s1.tasks[t].status.Leased?);
      assert s.tasks[t] == s1.tasks[t];
    }
  }

  ghost predicate OthersRemain(s: State, l: Lease) {
    exists t :: 0 <= t < |s.tasks| && t != l.task && s.tasks[t].job == l.job
      && (s.tasks[t].status.Pending? || s.tasks[t].status.Leased?)
  }

  /** A finish is accepted exactly for a lease whose check allows a job set back to pending. */
  lemma {:induction false} FinishIsChecked(s: State, l: Lease, now: nat, memo: set<Lease>, status: JobStatus)
    requires Issued(s, l)
    ensures Queue.Finish(s, l, now, memo, status).Success? <==>
      CurrentError(s, l, now, memo, {JobStatus.Running, JobStatus.Pending}) == ""
  {}

  /** The worker renews its lease, and anyone recovers, always before the lease expires. */
  ghost predicate KeepsPace(s: State, l: Lease, step: Step) {
    && l.task < |s.tasks|
    && match step
       case RenewLease(beat, now, seconds) =>
         beat == l && now < s.tasks[l.task].expires && now + seconds >= s.tasks[l.task].expires
       case Recover(now, order) => now < s.tasks[l.task].expires
       case _ => false
  }

  ghost predicate KeepsPaceThroughout(s: State, l: Lease, steps: seq<Step>)
    decreases |steps|
  {
    steps == []
    || (KeepsPaceThroughout(s, l, steps[..|steps| - 1])
        && KeepsPace(Run(s, steps[..|steps| - 1]), l, steps[|steps| - 1]))
  }

  lemma {:induction false} BeatKeepsLease(s: State, l: Lease, step: Step)
    requires KeepsPace(s, l, step) && s.tasks[l.task].status.Leased? && s.tasks[l.task].fence == l.fence
    ensures var r := Apply(s, step);
      && |r.tasks| == |s.tasks| && s.tasks[l.task].expires <= r.tasks[l.task].expires
      && r.tasks[l.task] == s.tasks[l.task].(expires := r.tasks[l.task].expires)
  {
    if step.Recover? && !s.settings.maintenance { RecoveryWaits(s, step.now, step.order, l.task); }
  }

  /** A worker that renews in time is never overtaken by recovery: its unit stays leased under its fence. */
  lemma {:induction false} HeartbeatKeepsLease(s: State, l: Lease, steps: seq<Step>)
    requires l.task < |s.tasks| && s.tasks[l.task].status.Leased? && s.tasks[l.task].fence == l.fence
    requires KeepsPaceThroughout(s, l, steps)
    ensures var r := Run(s, steps);
      && l.task < |r.tasks| && r.tasks[l.task].status.Leased? && r.tasks[l.task].fence == l.fence
      && s.tasks[l.task].expires <= r.tasks[l.task].expires
    decreases |steps|
  {
    if steps != [] {
      var n := |steps| - 1;
      HeartbeatKeepsLease(s, l, steps[..n]);
      BeatKeepsLease(Run(s, steps[..n]), l, steps[n]);
    }
  }

  /** The unit waits until `at` and is due from then on. */
  ghost predicate DueFrom(s: State, t: nat, at: nat) {
    && t < |s.tasks|
    && forall now: nat :: Due(s, t, s.tasks[t].job, now) <==> at <= now
  }

  /** A lease given back before anything was sent: the unit is due again two seconds later, the attempt is
      not counted, and the job goes on at once, waits for its budget or waits for its configuration. */
  lemma {:induction false} GivenBack(s: State, l: Lease, now: nat, memo: set<Lease>, code: string)
    requires Issued(s, l) && WaitWithoutDispatch(s, l, now, memo, code).Success?
    ensures var r := WaitWithoutDispatch(s, l, now, memo, code).value;
      && |r.tasks| == |s.tasks| && DueFrom(r, l.task, now + 2)
      && (s.tasks[l.task].attempts > 0 ==> r.tasks[l.task].attempts + 1 == s.tasks[l.task].attempts)
      && r.attempts == s.attempts[l.attempt := s.attempts[l.attempt].(state := AttemptState.NotExecuted)]
      && r.jobs == s.jobs[l.job := s.jobs[l.job].(status := r.jobs[l.job].status, error := code)]
      && (r.jobs[l.job].status.Pending? <==> code == "INSTANCE_CONCURRENCY_LIMIT")
      && (r.jobs[l.job].status.WaitingBudget? <==> code == "BUDGET_PAUSED")
      && (r.jobs[l.job].status.Pending? || r.jobs[l.job].status.WaitingBudget? || r.jobs[l.job].status.WaitingConfig?)
  {}

  /** The failure branch acts exactly for the newest lease of a running unit whose job did not move on. */
  ghost predicate Acts(s: State, l: Lease)
    requires Issued(s, l)
  {
    s.tasks[l.task].fence == l.fence && s.tasks[l.task].status.Leased? && s.jobs[l.job].epoch == l.epoch
  }

  /** Its verdict: an open request is uncertain; a sibling's scheduling choice puts the unit back and leaves
      the job alone; everything else is a failure of unit and job. The error is kept with the job. */
  lemma {:induction false} FailedUnit(s: State, l: Lease, code: string)
    requires Issued(s, l)
    ensures !Acts(s, l) ==> FailExecution(s, l, code) == s
    ensures Acts(s, l) ==>
      (var r, open := FailExecution(s, l, code), Uncertain(s, Some(l.attempt));
       var spared := code == "CONTROL_CHANGED" && YieldsTo(s.jobs[l.job].status);
       && |r.tasks| == |s.tasks| && |r.jobs| == |s.jobs| && |r.attempts| == |s.attempts|
       && (r.tasks[l.task].status.OutcomeUnknown? <==> open) && (r.tasks[l.task].status.Pending? <==> !open && spared)
       && (r.tasks[l.task].status.Failed? <==> !open && !spared)
       && (open ==> Holds(r.attempts[l.attempt], PermitState.Unknown) && r.jobs[l.job].status.OutcomeUnknown?)
       && (!open ==> r.attempts[l.attempt].permit == s.attempts[l.attempt].permit)
       && (!open && spared ==> r.jobs == s.jobs) && (!open && !spared ==> r.jobs[l.job].status.Failed?)
       && (open || !spared ==> r.jobs[l.job].error == code))
  {}

  /** What a failed unit leaves of its attempt: one that sent nothing is known to have failed, or is not
      executed and not counted when the unit was spared; a request that was sent stays as it is. */
  lemma {:induction false} FailedAttempt(s: State, l: Lease, code: string)
    requires Issued(s, l) && Acts(s, l) && !Uncertain(s, Some(l.attempt))
    ensures var r, a := FailExecution(s, l, code), s.attempts[l.attempt];
      var spared := code == "CONTROL_CHANGED" && YieldsTo(s.jobs[l.job].status);
      && |r.tasks| == |s.tasks|
      && r.attempts == s.attempts[l.attempt := a.(state := r.attempts[l.attempt].state)]
      && r.attempts[l.attempt].state ==
           (if spared then if a.permit.None? then AttemptState.NotExecuted else a.state
            else if a.state.Created? then AttemptState.KnownFailed else a.state)
      && (spared && a.permit.None? && s.tasks[l.task].attempts > 0 ==>
            r.tasks[l.task].attempts + 1 == s.tasks[l.task].attempts)
      && (!spared || a.permit.Some? ==> r.tasks[l.task].attempts == s.tasks[l.task].attempts)
  {}

  /** What a provider failure puts back is due after the delay the failure names, two seconds after an invalid
      answer; an invalid answer uses up the one repair, any other failure none. */
  lemma {:induction false} PutBackUnit(task: TaskRow, outcome: Outcome, code: string, now: nat, delay: nat,
      repaired: Option<string>)
    requires RetryTask(task, outcome, code, now, delay, repaired).status.Pending?
    ensures var row := RetryTask(task, outcome, code, now, delay, repaired);
      if outcome.ExecutedInvalid? then
        && task.repairs == 0
        && row == task.(status := TaskStatus.Pending, availableAt := now + 2, repairs := 1, work := repaired)
      else row == task.(status := TaskStatus.Pending, availableAt := now + delay)
  {}

  /** The failure asks for other settings, a smaller unit or no retry. */
  predicate Final(code: string) {
    || code == "PROVIDER_CONFIG" || code == "PROVIDER_UNSUPPORTED_RESPONSE"
    || code == "PROVIDER_REFUSAL" || code == "UNIT_TOO_LARGE"
  }

  /** A second invalid answer. */
  predicate Repeated(task: TaskRow, outcome: Outcome) {
    outcome.ExecutedInvalid? && task.repairs >= 1
  }

  /** A provider failure is the end of the unit if it asks for other settings, a smaller unit or no retry, when
      the attempts are used up, or on a second invalid answer. */
  lemma {:induction false} EndedUnit(task: TaskRow, outcome: Outcome, code: string, now: nat, delay: nat,
      repaired: Option<string>)
    ensures var status := RetryTask(task, outcome, code, now, delay, repaired).status;
      && (status.OutcomeUnknown? <==> outcome.Unknown?)
      && (status.Failed? <==> !outcome.Unknown? && (Final(code) || task.attempts >= 3 || Repeated(task, outcome)))
      && (status.Pending? <==> !status.OutcomeUnknown? && !status.Failed?)
  {}

  /** The job follows: uncertain with its unit, waiting for settings, ended with a preparation or by the
      summary of its units, otherwise back in the queue. */
  lemma {:induction false} FollowingJob(task: TaskRow, outcome: Outcome, code: string, finalized: Summary)
    ensures var status := RetryJob(task, outcome, code, finalized);
      && (outcome.Unknown? ==> status.OutcomeUnknown?)
      && (!outcome.Unknown? && code in {"PROVIDER_CONFIG", "PROVIDER_UNSUPPORTED_RESPONSE"} ==> status.WaitingConfig?)
      && (!outcome.Unknown? && code !in {"PROVIDER_CONFIG", "PROVIDER_UNSUPPORTED_RESPONSE"} ==>
            status == if !task.status.Failed? then JobStatus.Pending else if task.preparation then JobStatus.Failed
                      else if task.kind == "translate" || task.kind == "candidate" || task.kind == "semantic_review"
                      then finalized
                      else JobStatus.Pending)
  {}

  /** After a provider failure the money is settled first: a request that was not sent or not executed is
      released, one of unknown outcome, or answered without evidence of its use, becomes uncertain. The
      unit and its job follow only while the lease counts. */
  lemma {:induction false} RetriedUnit(s: State, l: Lease, outcome: Outcome, code: string, now: nat, delay: nat,
      repaired: Option<string>, finalized: Summary)
    requires Issued(s, l) && RetryOrStop(s, l, outcome, code, now, delay, repaired, finalized).Success?
    ensures var r := RetryOrStop(s, l, outcome, code, now, delay, repaired, finalized).value;
      var a, b := s.attempts[l.attempt], r.attempts[l.attempt];
      var silent := outcome.ExecutedInvalid? && Holds(a, PermitState.Reserved);
      && |r.attempts| == |s.attempts|
      && ((outcome.NotSent? || outcome.NotExecuted?) && a.permit.Some? ==>
           Holds(a, PermitState.Reserved) && Holds(b, PermitState.Released) && b.state.NotExecuted?)
      && ((outcome.Unknown? || silent) && !Holds(a, PermitState.Settled) ==>
           Holds(b, PermitState.Unknown) && b.state.OutcomeUnknown?)
      && (outcome.ExecutedInvalid? && !silent ==> b.permit == a.permit)
    ensures var r := RetryOrStop(s, l, outcome, code, now, delay, repaired, finalized).value;
      var counts := !Tombstoned(s, s.jobs[l.job]) && s.tasks[l.task].fence == l.fence && s.jobs[l.job].epoch == l.epoch;
      && (!counts ==> r.tasks == s.tasks && r.jobs == s.jobs)
      && (counts ==> |r.jobs| == |s.jobs| && r.jobs[l.job].error == code)
      && (counts && s.attempts[l.attempt].permit.None? && s.attempts[l.attempt].state.Created? ==>
           r.attempts[l.attempt].state == AttemptState.Failed)
  {}

  /** A stopped connection test of a current lease ends: uncertain with its request, failed otherwise. */
  lemma {:induction false} StoppedTest(s: State, l: Lease, now: nat, memo: set<Lease>, code: string,
    outcome: Option<Outcome>)
    requires Issued(s, l) && CurrentError(s, l, now, memo, RUNNING) == ""
    requires StopTest(s, l, now, memo, code, outcome).Success?
    ensures var r, unknown := StopTest(s, l, now, memo, code, outcome).value, outcome == Some(Outcome.Unknown);
      && |r.tasks| == |s.tasks| && |r.jobs| == |s.jobs|
      && r.tasks == s.tasks[l.task := s.tasks[l.task].(
           status := if unknown then TaskStatus.OutcomeUnknown else TaskStatus.Failed)]
      && r.jobs == s.jobs[l.job := s.jobs[l.job].(
           status := if unknown then JobStatus.OutcomeUnknown else JobStatus.Failed, error := code)]
  {}

  /** A validated answer kept with a settled attempt is found again for exactly its own work. */
  lemma {:induction false} KeptAnswer(s: State, a: nat, work: string)
    requires a < |s.attempts| && s.attempts[a].task < |s.tasks|
    ensures var r, t := RecordCheckpoint(s, a, work), s.attempts[a].task;
      && |r.tasks| == |s.tasks|
      && (s.attempts[a].state.Settled? && s.tasks[t].work == Some(work) ==> HasValidatedCheckpoint(r, t))
      && (forall u | 0 <= u < |s.tasks| && !Answers(s, a, work, u) ::
            HasValidatedCheckpoint(r, u) <==> HasValidatedCheckpoint(s, u))
  {
    var r, t := RecordCheckpoint(s, a, work), s.attempts[a].task;
    if s.attempts[a].state.Settled? && s.tasks[t].work == Some(work) {
      assert r.attempts[a].task == t && work in r.attempts[a].validated;
    }
    forall u | 0 <= u < |s.tasks| && !Answers(s, a, work, u)
      ensures HasValidatedCheckpoint(r, u) <==> HasValidatedCheckpoint(s, u)
    {
      KeptForOthers(s, a, work, u);
    }
  }

  /** The settled attempt did this work for the unit. */
  predicate Answers(s: State, a: nat, work: string, u: nat)
    requires a < |s.attempts| && u < |s.tasks|
  {
    u == s.attempts[a].task && s.attempts[a].state.Settled? && s.tasks[u].work == Some(work)
  }

  lemma {:induction false} KeptForOthers(s: State, a: nat, work: string, u: nat)
    requires a < |s.attempts| && u < |s.tasks|
    requires !Answers(s, a, work, u)
    ensures HasValidatedCheckpoint(RecordCheckpoint(s, a, work), u) <==> HasValidatedCheckpoint(s, u)
  {
    var r := RecordCheckpoint(s, a, work);
    if HasValidatedCheckpoint(s, u) {
      var b :| 0 <= b < |s.attempts| && s.attempts[b].task == u && s.attempts[b].state.Settled?
        && s.tasks[u].work.value in s.attempts[b].validated;
      assert r.attempts[b].task == u && r.attempts[b].state.Settled?
        && s.tasks[u].work.value in r.attempts[b].validated;
    }
    if HasValidatedCheckpoint(r, u) {
      var b :| 0 <= b < |r.attempts| && r.attempts[b].task == u && r.attempts[b].state.Settled?
        && r.tasks[u].work.value in r.attempts[b].validated;
      assert s.attempts[b].task == u && s.attempts[b].state.Settled?
        && s.tasks[u].work.value in s.attempts[b].validated;
    }
  }
}
