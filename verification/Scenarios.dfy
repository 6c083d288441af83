/** Concrete runs: what the premises of the main results allow, and what the code does in corners. */
module Scenarios {
  import opened Wrappers
  import opened Rows
  import opened Queue
  import opened Ledger
  import opened Executor
  import opened Deletion
  import opened Steps
  import opened Safety
  import opened Workers

  const LOCAL := Profile(None, false)
  const OPEN := SettingsRow(false, false, 0, 2)
  const JOB := JobRow(JobStatus.Pending, 0, "translate", "", 0, LOCAL, LOCAL, false, false, true, None, false, Some(0))
  const TASK := TaskRow(0, "translate", TaskStatus.Pending, 0, 0, 0, 0, 0, false, 0, None)
  const FIRST := Lease(0, 0, 0, 1, 0)
  const SECOND := Lease(0, 0, 1, 2, 0)

  function Attempted(t: nat, fence: nat, at: nat, state: AttemptState, permit: Option<PermitState>): AttemptRow {
    AttemptRow(t, 0, fence, 0, at, state, None, None, {},
      if permit.None? then None else Some(Permit(permit.value, None, false, None, None)))
  }

  function Unhindered(now: nat): Scene {
    Scene(now, {}, {}, {})
  }

  /** A run in order ends in state `s` with its executors in `phases`. */
  ghost predicate Reaches(steps: seq<Step>, s: State, phases: seq<Phase>) {
    OrderedRun(Initial(OPEN), steps) && Run(Initial(OPEN), steps) == s && Phases(Initial(OPEN), steps) == phases
  }

  lemma {:induction false} Then(steps: seq<Step>, s: State, phases: seq<Phase>, step: Step)
    requires Reaches(steps, s, phases) && Allowed(s, phases, step)
    ensures Reaches(steps + [step], Apply(s, step), Advance(s, phases, step))
  {
    assert (steps + [step])[..|steps|] == steps;
  }

  lemma {:induction false} ThenNext(before: seq<Step>, more: seq<Step>, n: nat, s: State, phases: seq<Phase>)
    requires n < |more| && Reaches(before + more[..n], s, phases) && Allowed(s, phases, more[n])
    ensures Reaches(before + more[..n + 1], Apply(s, more[n]), Advance(s, phases, more[n]))
  {
    Then(before + more[..n], s, phases, more[n]);
    assert before + more[..n] + [more[n]] == before + more[..n + 1];
  }

  lemma {:induction false} ClaimOnly(s: State, now: nat, j: nat, t: nat)
    requires j < |s.jobs| && t < |s.tasks| && !s.settings.maintenance
    requires (Tombstoned(s, s.jobs[j]) ==> s.tasks[t].kind == "cleanup")
    requires Pickable(s, j, Unhindered(now)) && forall k :: 0 <= k < |s.jobs| && k != j ==>
      !Pickable(s, k, Unhindered(now))
    requires Ready(s, t, j, Unhindered(now)) && forall u :: 0 <= u < |s.tasks| && u != t ==>
      !Ready(s, u, j, Unhindered(now))
    ensures Apply(s, ClaimTask(Unhindered(now), 60)) == Claimed(s, j, t, now, 60)
    ensures Claim(s, Unhindered(now), 60) == Some((Claimed(s, j, t, now, 60), LeaseFor(s, j, t)))
  {
    assert PickJob(s, |s.jobs|, Unhindered(now)) == Some(j);
    assert PickTask(s, |s.tasks|, j, Unhindered(now)) == Some(t);
  }

  function Tables(job: JobRow, tasks: seq<TaskRow>, attempts: seq<AttemptRow>): State {
    State([job], tasks, attempts, OPEN, {})
  }

  const RUNNING_JOB := JOB.(status := JobStatus.Running)
  const LEASED := TASK.(status := TaskStatus.Leased, fence := 1, attempts := 1, expires := 61)

  lemma {:induction false} FirstClaim(t: TaskRow)
    requires t.job == 0 && t.status.Pending? && t.availableAt == 0 && t.fence == 0 && t.attempts == 0
    ensures var s := Tables(JOB, [t], []); var r := Claimed(s, 0, 0, 1, 60);
      && Apply(s, ClaimTask(Unhindered(1), 60)) == r && Claim(s, Unhindered(1), 60).Some?
      && r == Tables(RUNNING_JOB, [t.(status := TaskStatus.Leased, fence := 1, attempts := 1, expires := 61)],
                     [Attempted(0, 1, 1, AttemptState.Created, None)])
  {
    var s := Tables(JOB, [t], []);
    assert Due(s, 0, 0, 1) && Ready(s, 0, 0, Unhindered(1));
    ClaimOnly(s, 1, 0, 0);
  }

  /** One request is out: enqueued, claimed, authorized. */
  function Opening(t: TaskRow): seq<Step> {
    [Enqueue(JOB), AddTask(t), ClaimTask(Unhindered(1), 60), AuthorizeDispatch(FIRST, 2, {}, None, None, true)]
  }

  function Dispatched(t: TaskRow): State {
    Tables(RUNNING_JOB, [t.(status := TaskStatus.Leased, fence := 1, attempts := 1, expires := 61)],
           [Attempted(0, 1, 1, AttemptState.Dispatching, Some(PermitState.Reserved))])
  }

  lemma {:induction false} AuthorizesFirst(s: State)
    requires |s.attempts| == 1 && s == Tables(RUNNING_JOB, s.tasks, [Attempted(0, 1, 1, AttemptState.Created, None)])
    requires |s.tasks| == 1 && s.tasks[0].job == 0 && s.tasks[0].status.Leased? && s.tasks[0].fence == 1
    requires s.tasks[0].expires == 61
    requires !s.tasks[0].preparation
    ensures Authorize(s, FIRST, 2, {}, None, None, true)
      == Success(s.(attempts := [Attempted(0, 1, 1, AttemptState.Dispatching, Some(PermitState.Reserved))]))
  {
    assert InFlight(s.attempts[..0]) == 0 && InFlight(s.attempts) == 0;
    assert AuthorizeError(s, FIRST, 2, {}, None, None, true) == "";
    var row := Attempted(0, 1, 1, AttemptState.Dispatching, Some(PermitState.Reserved));
    assert s.attempts[0 := row] == [row];
  }

  lemma {:induction false} Queued(t: TaskRow)
    requires t.job == 0 && t.status.Pending? && t.fence == 0 && t.attempts == 0
    ensures Reaches(Opening(t)[..2], Tables(JOB, [t], []), [])
  {
    var s0 := Initial(OPEN);
    assert Reaches([], s0, []);
    Then([], s0, [], Enqueue(JOB));
    assert [] + [Enqueue(JOB)] == [Enqueue(JOB)];
    assert Apply(s0, Enqueue(JOB)) == Tables(JOB, [], []);
    Then([Enqueue(JOB)], Tables(JOB, [], []), [], AddTask(t));
    assert Apply(Tables(JOB, [], []), AddTask(t)) == Tables(JOB, [t], []);
    assert [Enqueue(JOB)] + [AddTask(t)] == Opening(t)[..2];
  }

  lemma {:induction false} Opened(t: TaskRow)
    requires t.job == 0 && t.status.Pending? && t.availableAt == 0 && t.fence == 0 && t.attempts == 0 && !t.preparation
    ensures Reaches(Opening(t), Dispatched(t), [Sent])
  {
    var s2 := Tables(JOB, [t], []);
    var s3 := Claimed(s2, 0, 0, 1, 60);
    Queued(t);
    FirstClaim(t);
    Then(Opening(t)[..2], s2, [], Opening(t)[2]);
    assert Opening(t)[..2] + [Opening(t)[2]] == Opening(t)[..3];
    AuthorizesFirst(s3);
    Then(Opening(t)[..3], s3, [Fresh], Opening(t)[3]);
    assert Opening(t)[..3] + [Opening(t)[3]] == Opening(t);
  }

  const DOUBTED := Tables(JOB.(status := JobStatus.OutcomeUnknown), [LEASED.(status := TaskStatus.OutcomeUnknown)],
                          [Attempted(0, 1, 1, AttemptState.OutcomeUnknown, Some(PermitState.Unknown))])

  lemma {:induction false} RecoversFirst()
    ensures Apply(Dispatched(TASK), Recover(100, [0])) == DOUBTED
  {
    var s := Dispatched(TASK);
    assert Expired(s, 0, 100) && RecoverAll(s, 100, [0]) == RecoverAll(RecoverTask(s, 0), 100, []);
    assert FindAttempt(s.attempts, 0, 1) == Some(0);
  }

  const ANSWERED := DOUBTED.(attempts := [Attempted(0, 1, 1, AttemptState.Settled, Some(PermitState.Settled))])

  lemma {:induction false} SettlesLate()
    ensures Settle(DOUBTED, 0, None, None) == Success(ANSWERED)
  {
    assert DOUBTED.attempts[0 := ANSWERED.attempts[0]] == ANSWERED.attempts;
  }

  const REOPENED := Tables(JOB.(error := "PROVIDER_OUTPUT"),
    [LEASED.(status := TaskStatus.Pending, availableAt := 103, repairs := 1)], ANSWERED.attempts)

  lemma {:induction false} ReportsLate()
    ensures Apply(ANSWERED, Retry(FIRST, Outcome.ExecutedInvalid, "PROVIDER_OUTPUT", 101, 2, None, JobStatus.Failed)) ==
      REOPENED
  {
    assert "PROVIDER_OUTPUT"[9] == 'O';
    var task := ANSWERED.tasks[0];
    var row := RetryTask(task, Outcome.ExecutedInvalid, "PROVIDER_OUTPUT", 101, 2, None);
    assert row == task.(status := TaskStatus.Pending, availableAt := 103, repairs := task.repairs + 1, work := None);
    assert Classify(ANSWERED, 0, Outcome.ExecutedInvalid) == Success(ANSWERED) && Issued(ANSWERED, FIRST);
    assert RetryJob(row, Outcome.ExecutedInvalid, "PROVIDER_OUTPUT", JobStatus.Failed) == JobStatus.Pending;
  }

  lemma {:induction false} ClaimsAgain()
    ensures Apply(REOPENED, ClaimTask(Unhindered(200), 60)) == Claimed(REOPENED, 0, 0, 200, 60)
    ensures Claim(REOPENED, Unhindered(200), 60).Some?
  {
    assert Due(REOPENED, 0, 0, 200) && Ready(REOPENED, 0, 0, Unhindered(200));
    ClaimOnly(REOPENED, 200, 0, 0);
  }

  lemma {:induction false} AuthorizesSecond()
    ensures var s := Claimed(REOPENED, 0, 0, 200, 60);
      Authorize(s, SECOND, 201, {}, None, None, true)
      == Success(s.(attempts := ANSWERED.attempts
        + [Attempted(0, 2, 200, AttemptState.Dispatching, Some(PermitState.Reserved))]))
  {
    var s := Claimed(REOPENED, 0, 0, 200, 60);
    assert s.attempts[..1] == [s.attempts[0]] && InFlight(s.attempts[..1][..0]) == 0;
    assert InFlight(s.attempts[..1]) == 0 && InFlight(s.attempts) == 0;
    assert AuthorizeError(s, SECOND, 201, {}, None, None, true) == "";
    var row := Attempted(0, 2, 200, AttemptState.Dispatching, Some(PermitState.Reserved));
    assert s.attempts[1 := row] == ANSWERED.attempts + [row];
  }

  /** The request outlived its lease and recovery declared it uncertain; then its answer arrives. */
  const LATE: seq<Step> := [Recover(100, [0]), SettlePermit(0, None, None),
    Retry(FIRST, Outcome.ExecutedInvalid, "PROVIDER_OUTPUT", 101, 2, None, JobStatus.Failed),
    ClaimTask(Unhindered(200), 60), AuthorizeDispatch(SECOND, 201, {}, None, None, true)]

  lemma {:induction false} LateIsDoubted()
    ensures Reaches(Opening(TASK) + LATE[..1], DOUBTED, [Sent])
  {
    Opened(TASK);
    assert Opening(TASK) + LATE[..0] == Opening(TASK);
    RecoversFirst();
    ThenNext(Opening(TASK), LATE, 0, Dispatched(TASK), [Sent]);
  }

  lemma {:induction false} LateIsAnswered()
    ensures Reaches(Opening(TASK) + LATE[..2], ANSWERED, [Answered])
  {
    LateIsDoubted();
    SettlesLate();
    ThenNext(Opening(TASK), LATE, 1, DOUBTED, [Sent]);
    assert [Sent][0 := Answered] == [Answered];
  }

  lemma {:induction false} LateIsReopened()
    ensures Reaches(Opening(TASK) + LATE[..3], REOPENED, [Done])
  {
    LateIsAnswered();
    ReportsLate();
    ThenNext(Opening(TASK), LATE, 2, ANSWERED, [Answered]);
    assert [Answered][0 := Done] == [Done];
  }

  lemma {:induction false} LateIsClaimed()
    ensures Reaches(Opening(TASK) + LATE[..4], Claimed(REOPENED, 0, 0, 200, 60), [Done, Fresh])
  {
    LateIsReopened();
    ClaimsAgain();
    ThenNext(Opening(TASK), LATE, 3, REOPENED, [Done]);
    assert [Done] + [Fresh] == [Done, Fresh];
  }

  const REPEATED := Claimed(REOPENED, 0, 0, 200, 60).(
    attempts := ANSWERED.attempts + [Attempted(0, 2, 200, AttemptState.Dispatching, Some(PermitState.Reserved))])

  lemma {:induction false} LateIsRepeated()
    ensures Reaches(Opening(TASK) + LATE[..5], REPEATED, [Done, Sent])
  {
    LateIsClaimed();
    AuthorizesSecond();
    ThenNext(Opening(TASK), LATE, 4, Claimed(REOPENED, 0, 0, 200, 60), [Done, Fresh]);
    assert [Done, Fresh][1 := Sent] == [Done, Sent];
  }

  ghost predicate NobodyResolves(steps: seq<Step>) {
    forall n :: 0 <= n < |steps| ==> !steps[n].Resolve?
  }

  lemma {:induction false} NobodyResolvedLate()
    ensures NobodyResolves(Opening(TASK)) && NobodyResolves(LATE)
  {}

  /** An uncertain request is repeated without the user when its answer is settled after all: the run is
      in order, no step resolves anything, and the first permit is settled when the second is issued. */
  lemma {:induction false} LateAnswerIsRepeated()
    ensures Reaches(Opening(TASK) + LATE[..1], DOUBTED, [Sent])
    ensures Reaches(Opening(TASK) + LATE[..5], REPEATED, [Done, Sent])
    ensures Holds(DOUBTED.attempts[0], PermitState.Unknown) && REPEATED.attempts[0].task == REPEATED.attempts[1].task
    ensures Holds(REPEATED.attempts[0], PermitState.Settled) && Holds(REPEATED.attempts[1], PermitState.Reserved)
    ensures NobodyResolves(Opening(TASK)) && NobodyResolves(LATE)
  {
    LateIsDoubted();
    LateIsRepeated();
    NobodyResolvedLate();
  }

  /** The document is deleted while the request is in flight, and its cleanup runs at once. */
  const CLEANUP := Lease(1, 1, 1, 1, 0)

  const DELETION: seq<Step> := [DeleteDocument(0, 10), ClaimTask(Unhindered(20), 60), Cleanup(CLEANUP, 21)]

  const DELETED := State(
    [RUNNING_JOB.(epoch := 1, status := JobStatus.Cancelled), CleanupJob(0, 10)],
    [LEASED, CleanupTask(1, 10)], Dispatched(TASK).attempts, OPEN, {0})

  lemma {:induction false} Deletes()
    ensures Apply(Dispatched(TASK), DeleteDocument(0, 10)) == DELETED
  {
    var s := Dispatched(TASK);
    assert Tombstone(s, 0).jobs == [TombstoneJob(s.jobs[0], 0)];
  }

  lemma {:induction false} ClaimsCleanup()
    ensures Apply(DELETED, ClaimTask(Unhindered(20), 60)) == Claimed(DELETED, 1, 1, 20, 60)
    ensures Claim(DELETED, Unhindered(20), 60).Some?
  {
    assert Due(DELETED, 1, 1, 20) && Ready(DELETED, 1, 1, Unhindered(20));
    ClaimOnly(DELETED, 20, 1, 1);
  }

  lemma {:induction false} CleansFirst(s: State)
    requires s == Claimed(DELETED, 1, 1, 20, 60)
    ensures Issued(s, CLEANUP) && CleansUp(s, CLEANUP, 21) && Interrupts(s, CLEANUP, 0)
    ensures !Undisturbed(s, Cleanup(CLEANUP, 21))
    ensures |Apply(s, Cleanup(CLEANUP, 21)).attempts| == 2 && Stranded(Apply(s, Cleanup(CLEANUP, 21)), 0)
  {
    assert s.attempts[0] == Dispatched(TASK).attempts[0];
    assert Erase(s, 0, 1).tasks[0].status.Cancelled?;
    assert Interrupts(s, CLEANUP, 0);
  }

  lemma {:induction false} DeletionIsClaimed()
    ensures Reaches(Opening(TASK) + DELETION[..2], Claimed(DELETED, 1, 1, 20, 60), [Sent, Fresh])
  {
    Opened(TASK);
    assert Opening(TASK) + DELETION[..0] == Opening(TASK);
    Deletes();
    ThenNext(Opening(TASK), DELETION, 0, Dispatched(TASK), [Sent]);
    ClaimsCleanup();
    ThenNext(Opening(TASK), DELETION, 1, DELETED, [Sent]);
    assert [Sent] + [Fresh] == [Sent, Fresh];
  }

  /** A run in order whose cleanup leaves a request in flight on a cancelled task. */
  lemma {:induction false} CleanupStrandsRequest()
    ensures var s := Claimed(DELETED, 1, 1, 20, 60); var r := Apply(s, Cleanup(CLEANUP, 21));
      && Reaches(Opening(TASK) + DELETION[..2], s, [Sent, Fresh]) && Allowed(s, [Sent, Fresh], Cleanup(CLEANUP, 21))
      && !Undisturbed(s, Cleanup(CLEANUP, 21)) && |r.attempts| == 2 && Stranded(r, 0)
  {
    DeletionIsClaimed();
    CleansFirst(Claimed(DELETED, 1, 1, 20, 60));
  }

  const TEST := TASK.(kind := "provider_test")

  const STOP := StopConnectionTest(FIRST, 3, {}, "PROVIDER_OUTPUT", None)

  /** Stopped without an outcome while its request is in flight, a connection test would leave a reserved
      permit on a failed task. Its executor never does that: it would break its own order. */
  lemma {:induction false} StopTestStrandsRequest()
    ensures Reaches(Opening(TEST), Dispatched(TEST), [Sent]) && !Allowed(Dispatched(TEST), [Sent], STOP)
    ensures var r := Apply(Dispatched(TEST), STOP);
      |r.tasks| == 1 && r.tasks[0].status.Failed? && |r.attempts| == 1 && Holds(r.attempts[0], PermitState.Reserved)
  {
    Opened(TEST);
    assert CurrentError(Dispatched(TEST), FIRST, 3, {}, RUNNING) == "";
  }
}
