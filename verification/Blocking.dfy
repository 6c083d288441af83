/** When the claim loop is stuck on the job of a deleted document (src/packages/jobs/queue.py). */
module Blocking {
  import opened Wrappers
  import opened Rows
  import opened Queue
  import opened Ledger
  import opened Control
  import opened Deletion
  import opened Steps
  import opened Workers
  import opened Scenarios
  import opened Reopening

  /** The job the claim loop stops at belongs to a deleted document, and its oldest due task is no cleanup. */
  ghost predicate Blocks(s: State, sc: Scene, j: nat) {
    && j < |s.jobs| && Pickable(s, j, sc) && Tombstoned(s, s.jobs[j])
    && ComesFirst(s, sc, j)
    && exists t :: 0 <= t < |s.tasks| && OldestReady(s, t, j, sc) && s.tasks[t].kind != "cleanup"
  }

  ghost predicate ComesFirst(s: State, sc: Scene, j: nat)
    requires j < |s.jobs|
  {
    forall k :: 0 <= k < |s.jobs| && k != j && Pickable(s, k, sc) ==> Before(RotationKey(s, j), RotationKey(s, k))
  }

  lemma {:induction false} OneComesFirst(s: State, sc: Scene, j: nat, k: nat)
    requires j < |s.jobs| && k < |s.jobs| && Pickable(s, j, sc) && Pickable(s, k, sc)
    requires ComesFirst(s, sc, j) && ComesFirst(s, sc, k)
    ensures j == k
  {}

  ghost predicate OldestReady(s: State, t: nat, j: nat, sc: Scene)
    requires t < |s.tasks|
  {
    Ready(s, t, j, sc) && forall u :: 0 <= u < |s.tasks| && Ready(s, u, j, sc) ==> Older(s, t, u)
  }

  lemma {:induction false} PicksOldest(s: State, t: nat, j: nat, sc: Scene)
    requires t < |s.tasks| && OldestReady(s, t, j, sc)
    ensures PickTask(s, |s.tasks|, j, sc) == Some(t)
  {
    var r := PickTask(s, |s.tasks|, j, sc);
    assert r.Some? && Older(s, r.value, t) && Older(s, t, r.value);
  }

  /** Work is admissible and yet nothing is claimed exactly when such a job comes first: its claim is rolled
      back with an error, and no other job is tried. */
  lemma {:induction false} ClaimIsBlocked(s: State, sc: Scene, seconds: nat)
    requires !s.settings.maintenance && exists j :: 0 <= j < |s.jobs| && Pickable(s, j, sc)
    ensures Claim(s, sc, seconds).None? <==> exists j :: Blocks(s, sc, j)
  {
    var picked := PickJob(s, |s.jobs|, sc);
    assert picked.Some?;
    var j := picked.value;
    var t := PickTask(s, |s.tasks|, j, sc);
    assert t.Some? && OldestReady(s, t.value, j, sc) && ComesFirst(s, sc, j);
    if Claim(s, sc, seconds).None? {
      assert Blocks(s, sc, j);
    }
    forall k | Blocks(s, sc, k) ensures k == j && Claim(s, sc, seconds).None? {
      OneComesFirst(s, sc, j, k);
      var u :| 0 <= u < |s.tasks| && OldestReady(s, u, k, sc) && s.tasks[u].kind != "cleanup";
      PicksOldest(s, u, k, sc);
    }
  }

  const SIBLING := TASK.(availableAt := 2)

  /** A unit fails and ends its job while a sibling is leased; the document is deleted, and the sibling's
      lease expires before the cleanup is claimed. */
  const FAILURE: seq<Step> := [Enqueue(JOB), AddTask(TASK), AddTask(SIBLING), ClaimTask(Unhindered(1), 60),
    ClaimTask(Unhindered(2), 60),
    FailTask(FIRST, "WORKER_FAILED"), DeleteDocument(0, 10), Recover(100, [1])]

  const WAITING := Tables(JOB, [TASK, SIBLING], [])
  const ONE := Claimed(WAITING, 0, 0, 1, 60)
  const TWO := Claimed(ONE, 0, 1, 2, 60)
  const FAILED := State(
    [JOB.(status := JobStatus.Failed, error := "WORKER_FAILED")],
    [LEASED.(status := TaskStatus.Failed),
      SIBLING.(status := TaskStatus.Leased, fence := 1, attempts := 1, expires := 62)],
    [Attempted(0, 1, 1, AttemptState.KnownFailed, None), Attempted(1, 1, 2, AttemptState.Created, None)], OPEN, {})
  const GONE := State(
    [FAILED.jobs[0].(epoch := 1), CleanupJob(0, 10)], FAILED.tasks + [CleanupTask(1, 10)], FAILED.attempts, OPEN, {0})
  const STUCK := State(
    [GONE.jobs[0].(status := JobStatus.Pending), CleanupJob(0, 10)],
    [GONE.tasks[0], GONE.tasks[1].(status := TaskStatus.Pending), CleanupTask(1, 10)],
    [FAILED.attempts[0], Attempted(1, 1, 2, AttemptState.Failed, None)], OPEN, {0})

  lemma {:induction false} ClaimsBoth()
    ensures Apply(WAITING, FAILURE[3]) == ONE && Claim(WAITING, Unhindered(1), 60).Some?
    ensures Apply(ONE, FAILURE[4]) == TWO && Claim(ONE, Unhindered(2), 60).Some?
  {
    assert Due(WAITING, 0, 0, 1) && Ready(WAITING, 0, 0, Unhindered(1));
    ClaimOnly(WAITING, 1, 0, 0);
    assert Due(ONE, 1, 0, 2) && Ready(ONE, 1, 0, Unhindered(2));
    ClaimOnly(ONE, 2, 0, 1);
  }

  lemma {:induction false} FailsFirst()
    ensures Apply(TWO, FAILURE[5]) == FAILED
  {
    assert TWO.attempts == [Attempted(0, 1, 1, AttemptState.Created, None),
      Attempted(1, 1, 2, AttemptState.Created, None)];
    assert "WORKER_FAILED"[0] == 'W';
  }

  lemma {:induction false} DeletesFailed()
    ensures Apply(FAILED, FAILURE[6]) == GONE
  {
    assert Tombstone(FAILED, 0).jobs == [TombstoneJob(FAILED.jobs[0], 0)];
  }

  lemma {:induction false} RecoversSibling()
    ensures Apply(GONE, FAILURE[7]) == STUCK
  {
    assert Expired(GONE, 1, 100) && RecoverAll(GONE, 100, [1]) == RecoverAll(RecoverTask(GONE, 1), 100, []);
    assert FindAttempt(GONE.attempts, 1, 1) == Some(1);
  }

  lemma {:induction false} FailureNext(n: nat, s: State, phases: seq<Phase>)
    requires n < |FAILURE| && Reaches(FAILURE[..n], s, phases) && Allowed(s, phases, FAILURE[n])
    ensures Reaches(FAILURE[..n + 1], Apply(s, FAILURE[n]), Advance(s, phases, FAILURE[n]))
  {
    Then(FAILURE[..n], s, phases, FAILURE[n]);
    assert FAILURE[..n] + [FAILURE[n]] == FAILURE[..n + 1];
  }

  lemma {:induction false} RowsAdded()
    ensures Apply(Initial(OPEN), FAILURE[0]) == Tables(JOB, [], [])
    ensures Apply(Tables(JOB, [], []), FAILURE[1]) == Tables(JOB, [TASK], [])
    ensures Apply(Tables(JOB, [TASK], []), FAILURE[2]) == WAITING
  {}

  lemma {:induction false} FailureStarts()
    ensures Reaches(FAILURE[..0], Initial(OPEN), [])
  {
    assert FAILURE[..0] == [];
  }

  lemma {:induction false} FailureBegins()
    ensures Reaches(FAILURE[..3], WAITING, [])
  {
    FailureStarts();
    RowsAdded();
    FailureNext(0, Initial(OPEN), []);
    FailureNext(1, Tables(JOB, [], []), []);
    FailureNext(2, Tables(JOB, [TASK], []), []);
  }

  lemma {:induction false} FailureClaims()
    ensures Reaches(FAILURE[..5], TWO, [Fresh, Fresh])
  {
    FailureBegins();
    ClaimsBoth();
    FailureNext(3, WAITING, []);
    assert [] + [Fresh] == [Fresh];
    FailureNext(4, ONE, [Fresh]);
    assert [Fresh] + [Fresh] == [Fresh, Fresh];
  }

  lemma {:induction false} FailureFails()
    ensures Reaches(FAILURE[..6], FAILED, [Done, Fresh])
  {
    FailureClaims();
    FailsFirst();
    FailureNext(5, TWO, [Fresh, Fresh]);
    assert [Fresh, Fresh][0 := Done] == [Done, Fresh];
  }

  lemma {:induction false} FailureDeletes()
    ensures Reaches(FAILURE[..7], GONE, [Done, Fresh])
  {
    FailureFails();
    DeletesFailed();
    FailureNext(6, FAILED, [Done, Fresh]);
  }

  lemma {:induction false} FailureEnds()
    ensures Reaches(FAILURE[..8], STUCK, [Done, Fresh])
  {
    FailureDeletes();
    RecoversSibling();
    FailureNext(7, GONE, [Done, Fresh]);
  }

  /** Job 0 of a deleted document comes first for good, and recovery finds nothing to do. */
  ghost predicate Jammed(s: State) {
    && (forall t :: 0 <= t < |s.tasks| ==> !s.tasks[t].status.Leased?)
    && (forall now: nat :: now >= 100 ==> Blocks(s, Unhindered(now), 0))
  }

  /** What an idle worker does each second: recover, then claim with nothing locked or refused. */
  ghost predicate Polls(step: Step) {
    step.Recover? || (step.ClaimTask? && step.scene.now >= 100 && step.scene == Unhindered(step.scene.now))
  }

  lemma {:induction false} NothingToRecover(s: State, now: nat, order: seq<nat>)
    requires forall t :: 0 <= t < |s.tasks| ==> !s.tasks[t].status.Leased?
    ensures RecoverAll(s, now, order) == s
    decreases |order|
  {
    if order != [] { NothingToRecover(s, now, order[1..]); }
  }

  lemma {:induction false} PollChangesNothing(s: State, step: Step)
    requires Jammed(s) && Polls(step)
    ensures Apply(s, step) == s
  {
    if step.Recover? { NothingToRecover(s, step.now, step.order); }
    else {
      assert Blocks(s, Unhindered(step.scene.now), 0);
      if !s.settings.maintenance { ClaimIsBlocked(s, step.scene, step.seconds); }
    }
  }

  lemma {:induction false} PollsChangeNothing(s: State, polls: seq<Step>)
    requires Jammed(s) && forall n :: 0 <= n < |polls| ==> Polls(polls[n])
    ensures Run(s, polls) == s
    decreases |polls|
  {
    if polls != [] {
      PollsChangeNothing(s, polls[..|polls| - 1]);
      PollChangesNothing(s, polls[|polls| - 1]);
    }
  }

  /** The second attempt of job 0 was its latest, at time 2; the cleanup was queued at time 10. */
  lemma {:induction false} CleanupComesLater(s: State)
    requires |s.jobs| == 2 && |s.attempts| == 2 && s.attempts[0].job == s.attempts[1].job == 0
    requires s.attempts[0].createdAt == 1 && s.attempts[1].createdAt == 2 && s.jobs[1].createdAt == 10
    ensures Before(RotationKey(s, 0), RotationKey(s, 1))
  {
    assert s.attempts[..1] == [s.attempts[0]];
    assert LastClaim(s.attempts[..1][..0], 0) == None && LastClaim(s.attempts[..1], 0) == Some(1);
    assert LastClaim(s.attempts, 0) == Some(2);
  }

  /** A closed first task, its sibling and the cleanup. */
  lemma {:induction false} SiblingBlocks(s: State, now: nat)
    requires now >= 100 && |s.jobs| == 2 && |s.tasks| == 3 && s.jobs[0].status.Pending? && s.jobs[1].status.Pending?
    requires Tombstoned(s, s.jobs[0]) && s.tasks[0].job == s.tasks[1].job == 0 && s.tasks[2].job == 1
    requires !s.tasks[0].status.Pending? && s.tasks[1].status.Pending? && s.tasks[2].status.Pending?
    requires s.tasks[1].availableAt <= now && s.tasks[2].availableAt <= now && s.tasks[1].kind != "cleanup"
    requires Before(RotationKey(s, 0), RotationKey(s, 1))
    ensures Blocks(s, Unhindered(now), 0) && Pickable(s, 1, Unhindered(now))
  {
    var sc := Unhindered(now);
    assert Due(s, 1, 0, now) && Ready(s, 1, 0, sc) && OldestReady(s, 1, 0, sc);
    assert Due(s, 2, 1, now) && Ready(s, 2, 1, sc);
  }

  lemma {:induction false} StuckIsJammed()
    ensures Jammed(STUCK) && STUCK.tasks[2].kind == "cleanup"
    ensures forall now: nat :: now >= 100 ==> Pickable(STUCK, 1, Unhindered(now))
  {
    CleanupComesLater(STUCK);
    forall now: nat | now >= 100 ensures Blocks(STUCK, Unhindered(now), 0) && Pickable(STUCK, 1, Unhindered(now)) {
      SiblingBlocks(STUCK, now);
    }
  }

  /** A reachable state in which the cleanup is due and admissible, and the worker loop never claims
      anything again, however often it polls: the job had ended when its document was deleted. */
  lemma {:induction false} QueueIsStuck(polls: seq<Step>, now: nat)
    requires now >= 100 && forall n :: 0 <= n < |polls| ==> Polls(polls[n])
    ensures Reaches(FAILURE[..8], STUCK, [Done, Fresh])
    ensures Run(STUCK, polls) == STUCK && Pickable(STUCK, 1, Unhindered(now)) && STUCK.tasks[2].kind == "cleanup"
  {
    FailureEnds();
    StuckIsJammed();
    PollsChangeNothing(STUCK, polls);
  }

  /** Both units are leased and the first has a request out. */
  const SENT: Step := AuthorizeDispatch(FIRST, 3, {}, None, None, true)

  const WORKING := TWO.(attempts := [Attempted(0, 1, 1, AttemptState.Dispatching, Some(PermitState.Reserved)),
      Attempted(1, 1, 2, AttemptState.Created, None)])

  /** The attempts once both leases expired. */
  const CLOSED := [Attempted(0, 1, 1, AttemptState.OutcomeUnknown, Some(PermitState.Unknown)),
    Attempted(1, 1, 2, AttemptState.Failed, None)]

  lemma {:induction false} SendsFirst()
    ensures Authorize(TWO, FIRST, 3, {}, None, None, true) == Success(WORKING)
  {
    assert TWO.attempts == [Attempted(0, 1, 1, AttemptState.Created, None),
      Attempted(1, 1, 2, AttemptState.Created, None)];
    assert TWO.attempts[..1] == [TWO.attempts[0]] && InFlight(TWO.attempts[..1][..0]) == 0;
    assert InFlight(TWO.attempts[..1]) == 0 && InFlight(TWO.attempts) == 0;
    assert AuthorizeError(TWO, FIRST, 3, {}, None, None, true) == "";
    assert TWO.attempts[0 := WORKING.attempts[0]] == WORKING.attempts;
  }

  lemma {:induction false} Working()
    ensures Reaches(FAILURE[..5] + [SENT], WORKING, [Sent, Fresh])
  {
    FailureClaims();
    SendsFirst();
    Then(FAILURE[..5], TWO, [Fresh, Fresh], SENT);
    assert [Fresh, Fresh][0 := Sent] == [Sent, Fresh];
  }

  /** The document is deleted at work, and both leases expire before the cleanup is claimed. */
  const DELETION: seq<Step> := [DeleteDocument(0, 10), Recover(100, [0, 1])]

  const MARKED := State(
    [WORKING.jobs[0].(epoch := 1, status := JobStatus.Cancelled), CleanupJob(0, 10)],
    WORKING.tasks + [CleanupTask(1, 10)], WORKING.attempts, OPEN, {0})
  const JAMMED := State(
    [MARKED.jobs[0].(status := JobStatus.Pending), CleanupJob(0, 10)],
    [WORKING.tasks[0].(status := TaskStatus.OutcomeUnknown), WORKING.tasks[1].(status := TaskStatus.Pending),
      CleanupTask(1, 10)],
    CLOSED, OPEN, {0})

  lemma {:induction false} DeletesAtWork()
    ensures Apply(WORKING, DELETION[0]) == MARKED
  {
    assert Tombstone(WORKING, 0).jobs == [TombstoneJob(WORKING.jobs[0], 0)];
  }

  /** The uncertain request makes the cancelled job one of unknown outcome, and its sibling goes back. */
  lemma {:induction false} RecoversBoth(s: State)
    requires |s.jobs| >= 1 && |s.tasks| >= 2 && s.attempts == WORKING.attempts && !s.settings.maintenance
    requires s.tasks[..2] == WORKING.tasks && s.jobs[0].status.Cancelled?
    ensures RecoverAll(s, 100, [0, 1]) == s.(
      jobs := s.jobs[0 := s.jobs[0].(status := JobStatus.Pending)], attempts := CLOSED,
      tasks := s.tasks[0 := s.tasks[0].(status := TaskStatus.OutcomeUnknown)]
        [1 := s.tasks[1].(status := TaskStatus.Pending)])
  {
    assert s.tasks[0] == WORKING.tasks[0] && s.tasks[1] == WORKING.tasks[1];
    assert Expired(s, 0, 100) && FindAttempt(s.attempts, 0, 1) == Some(0) by {
      assert s.attempts[..1] == [s.attempts[0]];
    }
    var m := RecoverTask(s, 0);
    assert m.jobs[0] == s.jobs[0].(status := JobStatus.OutcomeUnknown) && m.tasks[1] == s.tasks[1];
    assert Expired(m, 1, 100) && FindAttempt(m.attempts, 1, 1) == Some(1);
    var r := RecoverTask(m, 1);
    assert [0, 1][1..] == [1] && [1][1..] == [];
    assert RecoverAll(s, 100, [0, 1]) == RecoverAll(m, 100, [1]) == RecoverAll(r, 100, []) == r;
    assert r.attempts == CLOSED;
  }

  lemma {:induction false} MarkedRecovers()
    ensures Apply(MARKED, DELETION[1]) == JAMMED
  {
    assert MARKED.tasks[..2] == WORKING.tasks;
    RecoversBoth(MARKED);
  }

  lemma {:induction false} MarkedIsReached()
    ensures Reaches(FAILURE[..5] + [SENT] + DELETION[..1], MARKED, [Sent, Fresh])
  {
    Working();
    DeletesAtWork();
    assert FAILURE[..5] + [SENT] + DELETION[..0] == FAILURE[..5] + [SENT];
    ThenNext(FAILURE[..5] + [SENT], DELETION, 0, WORKING, [Sent, Fresh]);
  }

  lemma {:induction false} JammedIsReached()
    ensures Reaches(FAILURE[..5] + [SENT] + DELETION[..2], JAMMED, [Sent, Fresh])
  {
    MarkedIsReached();
    MarkedRecovers();
    ThenNext(FAILURE[..5] + [SENT], DELETION, 1, MARKED, [Sent, Fresh]);
  }

  lemma {:induction false} JammedIsJammed()
    ensures Jammed(JAMMED) && JAMMED.tasks[2].kind == "cleanup"
    ensures forall now: nat :: now >= 100 ==> Pickable(JAMMED, 1, Unhindered(now))
  {
    CleanupComesLater(JAMMED);
    forall now: nat | now >= 100 ensures Blocks(JAMMED, Unhindered(now), 0) && Pickable(JAMMED, 1, Unhindered(now)) {
      SiblingBlocks(JAMMED, now);
    }
  }

  /** The same standstill after deleting the document of a running job with one request out. */
  lemma {:induction false} DeletionAtWorkIsStuck(polls: seq<Step>, now: nat)
    requires now >= 100 && forall n :: 0 <= n < |polls| ==> Polls(polls[n])
    ensures WORKING.jobs[0].status.Running? && Reaches(FAILURE[..5] + [SENT], WORKING, [Sent, Fresh])
    ensures Reaches(FAILURE[..5] + [SENT] + DELETION[..2], JAMMED, [Sent, Fresh])
    ensures Run(JAMMED, polls) == JAMMED && Pickable(JAMMED, 1, Unhindered(now)) && JAMMED.tasks[2].kind == "cleanup"
  {
    Working();
    JammedIsReached();
    JammedIsJammed();
    PollsChangeNothing(JAMMED, polls);
  }

  /** A job that blocks the queue is the cleanup its deletion queued, or recovery reopened it. */
  lemma {:induction false} BlockingIsRecovered(settings: SettingsRow, steps: seq<Step>, sc: Scene, j: nat)
    requires Blocks(Run(Initial(settings), steps), sc, j)
    ensures BornOrRecovered(Initial(settings), steps, j)
  {
    DeletedIsBornOrRecovered(settings, steps, j);
  }

  /** The user cancels the job instead of deleting its document. */
  const CANCEL: seq<Step> := [Command(0, Action.Cancel), Recover(100, [0, 1])]

  const CANCELLED := WORKING.(jobs := [WORKING.jobs[0].(epoch := 1, status := JobStatus.Cancelled)])

  const REVIVED := CANCELLED.(jobs := [CANCELLED.jobs[0].(status := JobStatus.Pending)], attempts := CLOSED,
    tasks := [WORKING.tasks[0].(status := TaskStatus.OutcomeUnknown), WORKING.tasks[1].(status := TaskStatus.Pending)])

  lemma {:induction false} CancelsAtWork()
    ensures Apply(WORKING, CANCEL[0]) == CANCELLED
  {
    assert "translate"[0] == 't';
    assert ControlError(WORKING, 0, Action.Cancel) == "";
  }

  lemma {:induction false} CancelledRecovers()
    ensures Apply(CANCELLED, CANCEL[1]) == REVIVED
  {
    assert CANCELLED.tasks[..2] == WORKING.tasks;
    RecoversBoth(CANCELLED);
  }

  lemma {:induction false} CancelIsReached()
    ensures Reaches(FAILURE[..5] + [SENT] + CANCEL[..1], CANCELLED, [Sent, Fresh])
  {
    Working();
    CancelsAtWork();
    assert FAILURE[..5] + [SENT] + CANCEL[..0] == FAILURE[..5] + [SENT];
    ThenNext(FAILURE[..5] + [SENT], CANCEL, 0, WORKING, [Sent, Fresh]);
  }

  lemma {:induction false} RevivedIsReached()
    ensures Reaches(FAILURE[..5] + [SENT] + CANCEL[..2], REVIVED, [Sent, Fresh])
  {
    CancelIsReached();
    CancelledRecovers();
    ThenNext(FAILURE[..5] + [SENT], CANCEL, 1, CANCELLED, [Sent, Fresh]);
  }

  lemma {:induction false} ClaimsRevived()
    ensures Claim(REVIVED, Unhindered(200), 60) == Some((Claimed(REVIVED, 0, 1, 200, 60), LeaseFor(REVIVED, 0, 1)))
  {
    assert Due(REVIVED, 1, 0, 200) && Ready(REVIVED, 1, 0, Unhindered(200));
    ClaimOnly(REVIVED, 200, 0, 1);
  }

  /** A cancelled job runs again although nobody resumed it: recovery overwrites the cancellation with the
      doubt about one request and then puts the sibling back. */
  lemma {:induction false} CancelledJobIsClaimed()
    ensures Reaches(FAILURE[..5] + [SENT] + CANCEL[..1], CANCELLED, [Sent, Fresh])
    ensures CANCELLED.jobs[0].status.Cancelled? && OverwritesCancel(CANCELLED, CANCEL[1], 0)
    ensures Reaches(FAILURE[..5] + [SENT] + CANCEL[..2], REVIVED, [Sent, Fresh])
    ensures Claim(REVIVED, Unhindered(200), 60).Some? && Claim(REVIVED, Unhindered(200), 60).value.1.job == 0
  {
    CancelIsReached();
    RevivedIsReached();
    ClaimsRevived();
    CancelledDoubted();
  }

  lemma {:induction false} CancelledDoubted()
    ensures OverwritesCancel(CANCELLED, CANCEL[1], 0)
  {
    assert CANCELLED.attempts[..1] == [CANCELLED.attempts[0]];
    assert FindAttempt(CANCELLED.attempts, 0, 1) == Some(0);
    assert [0, 1][..0] == [] && Met(CANCELLED, 100, [0, 1], 0) == CANCELLED;
    assert DoubtsAt(CANCELLED, 100, [0, 1], 0, 0);
  }
}
