/** Bounded bypass: a job that stays pickable is overtaken at most once by each job ahead of it. */
module Fairness {
  import opened Wrappers
  import opened Rows
  import opened Queue
  import opened Executor
  import opened Control
  import opened Steps

  /** No rotation key changes. */
  ghost predicate SameKeys(s: State, r: State) {
    && |r.jobs| == |s.jobs| && |r.attempts| == |s.attempts|
    && (forall j :: 0 <= j < |s.jobs| ==> r.jobs[j].createdAt == s.jobs[j].createdAt)
    && (forall a :: 0 <= a < |s.attempts| ==> SameTurn(s.attempts[a], r.attempts[a]))
  }

  ghost predicate SameTurn(a: AttemptRow, b: AttemptRow) {
    a.job == b.job && a.createdAt == b.createdAt
  }

  lemma {:induction false} SameLastClaim(p: seq<AttemptRow>, q: seq<AttemptRow>, j: nat)
    requires |p| == |q| && forall a :: 0 <= a < |p| ==> SameTurn(p[a], q[a])
    ensures LastClaim(p, j) == LastClaim(q, j)
  {
    if p != [] {
      assert SameTurn(p[|p| - 1], q[|p| - 1]);
      SameLastClaim(p[..|p| - 1], q[..|p| - 1], j);
    }
  }

  lemma {:induction false} SameKeysTrans(s: State, m: State, r: State)
    requires SameKeys(s, m) && SameKeys(m, r)
    ensures SameKeys(s, r)
  {
    forall a | 0 <= a < |s.attempts| ensures SameTurn(s.attempts[a], r.attempts[a]) {
      assert SameTurn(s.attempts[a], m.attempts[a]) && SameTurn(m.attempts[a], r.attempts[a]);
    }
  }

  lemma {:induction false} RecoverTaskSameKeys(s: State, t: nat)
    requires t < |s.tasks| && s.tasks[t].job < |s.jobs|
    ensures SameKeys(s, RecoverTask(s, t))
  {
    RecoverTaskRows(s, t);
  }

  lemma {:induction false} RecoverSameKeys(s: State, now: nat, order: seq<nat>)
    ensures SameKeys(s, RecoverAll(s, now, order))
    decreases |order|
  {
    if order != [] {
      if Expired(s, order[0], now) {
        RecoverTaskSameKeys(s, order[0]);
        RecoverSameKeys(RecoverTask(s, order[0]), now, order[1..]);
        SameKeysTrans(s, RecoverTask(s, order[0]), RecoverAll(s, now, order));
      } else {
        RecoverSameKeys(s, now, order[1..]);
      }
    }
  }

  lemma {:induction false} UncertainSameKeys(s: State, n: nat)
    requires n <= |s.attempts|
    ensures SameKeys(s, UncertainInflight(s, n))
  {
    if n > 0 {
      UncertainSameKeys(s, n - 1);
      var m := UncertainInflight(s, n - 1);
      forall a | 0 <= a < |s.attempts| ensures SameTurn(s.attempts[a], UncertainOne(m, n - 1).attempts[a]) {
        assert SameTurn(s.attempts[a], m.attempts[a]);
      }
    }
  }

  lemma {:induction false} RetrySameKeys(s: State, l: Lease, outcome: Outcome, code: string, now: nat, delay: nat,
      repaired: Option<string>, finalized: Summary)
    requires Issued(s, l)
    ensures SameKeys(s, Commit(s, RetryOrStop(s, l, outcome, code, now, delay, repaired, finalized)))
  {
    var classified := Classify(s, l.attempt, EffectiveOutcome(s, l.attempt, outcome));
    assert classified.Success? ==>
      SameKeys(s, classified.value) && classified.value.tasks == s.tasks && classified.value.jobs == s.jobs;
  }

  lemma {:induction false} StopTestSameKeys(s: State, l: Lease, now: nat, memo: set<Lease>, code: string,
      result: Option<Outcome>)
    requires Issued(s, l)
    ensures SameKeys(s, Commit(s, StopTest(s, l, now, memo, code, result)))
  {}

  lemma {:induction false} LeaseStepsSameKeys(s: State, step: Step)
    requires step.RenewLease? || step.FinishTask?
    ensures SameKeys(s, Apply(s, step))
  {}

  lemma {:induction false} WorkerStepsSameKeys(s: State, step: Step)
    requires step.FailTask? || step.Wait?
    ensures SameKeys(s, Apply(s, step))
  {}

  lemma {:induction false} AuthorizeSameKeys(s: State, step: Step)
    requires step.AuthorizeDispatch?
    ensures SameKeys(s, Apply(s, step))
  {}

  lemma {:induction false} PermitStepsSameKeys(s: State, step: Step)
    requires step.MarkUncertain? || step.Release? || step.SettlePermit? || step.Checkpoint?
    ensures SameKeys(s, Apply(s, step))
  {}

  lemma {:induction false} CommandSameKeys(s: State, step: Step)
    requires step.Command? || step.Dispatch? || step.AddTask? || step.ReplaceSource? || step.ContinueDraft?
    ensures SameKeys(s, Apply(s, step))
  {}

  lemma {:induction false} CleanupSameKeys(s: State, step: Step)
    requires step.Cleanup?
    ensures SameKeys(s, Apply(s, step))
  {}

  lemma {:induction false} ResolveSameKeys(s: State, step: Step)
    requires step.Resolve?
    ensures SameKeys(s, Apply(s, step))
  {}

  /** The accepted transactions that add a job. */
  ghost predicate Joins(s: State, step: Step) {
    || (step.Enqueue? && !Tombstoned(s, step.newJob))
    || (step.DeleteDocument? && Deletion.DeleteDocument(s, step.document, step.now).Success?)
  }

  lemma {:induction false} StepSameKeys(s: State, step: Step)
    requires !Joins(s, step) && !(step.ClaimTask? && Claim(s, step.scene, step.seconds).Some?)
    ensures SameKeys(s, Apply(s, step))
  {
    assert SameKeys(s, s);
    match step
    case ClaimTask(_, _) =>
    case Recover(now, order) => RecoverSameKeys(s, now, order);
    case Maintenance(enabled, disabled) =>
      UncertainSameKeys(s.(settings := s.settings.(maintenance := enabled, dispatchDisabled := disabled)),
        |s.attempts|);
    case Retry(l, outcome, code, now, delay, repaired, finalized) =>
      if Issued(s, l) { RetrySameKeys(s, l, outcome, code, now, delay, repaired, finalized); }
    case StopConnectionTest(l, now, memo, code, result) =>
      if Issued(s, l) { StopTestSameKeys(s, l, now, memo, code, result); }
    case _ =>
      if step.RenewLease? || step.FinishTask? { LeaseStepsSameKeys(s, step); }
      else if step.FailTask? || step.Wait? { WorkerStepsSameKeys(s, step); }
      else if step.AuthorizeDispatch? { AuthorizeSameKeys(s, step); }
      else if step.MarkUncertain? || step.Release? || step.SettlePermit? || step.Checkpoint? {
        PermitStepsSameKeys(s, step);
      }
      else if step.Resolve? { ResolveSameKeys(s, step); }
      else if step.Cleanup? { CleanupSameKeys(s, step); }
      else if step.Enqueue? || step.DeleteDocument? {}
      else { CommandSameKeys(s, step); }
  }

  lemma {:induction false} KeysFollow(s: State, r: State, j: nat)
    requires SameKeys(s, r) && j < |s.jobs|
    ensures RotationKey(r, j) == RotationKey(s, j)
  {
    SameLastClaim(s.attempts, r.attempts, j);
  }

  /** `now` is later than everything recorded so far. */
  ghost predicate Later(s: State, now: nat) {
    && (forall a :: 0 <= a < |s.attempts| ==> s.attempts[a].createdAt < now)
    && (forall j :: 0 <= j < |s.jobs| ==> s.jobs[j].createdAt < now)
  }

  lemma {:induction false} TurnIsPast(s: State, now: nat, j: nat)
    requires Later(s, now) && j < |s.jobs|
    ensures RotationKey(s, j).turn < now
  {}

  /** Strictly increasing timestamps, and job `j` pickable at every claim but not claimed. */
  ghost predicate Overlooks(s: State, step: Step, j: nat) {
    && j < |s.jobs|
    && (step.Enqueue? ==> Later(s, step.newJob.createdAt))
    && (step.DeleteDocument? ==> Later(s, step.now))
    && (step.ClaimTask? ==>
         && Later(s, step.scene.now) && Pickable(s, j, step.scene)
         && (Claim(s, step.scene, step.seconds).Some? ==> Claim(s, step.scene, step.seconds).value.1.job != j))
  }

  function ClaimCount(s: State, step: Step): nat {
    if step.ClaimTask? && Claim(s, step.scene, step.seconds).Some? then 1 else 0
  }

  /** How many of the first `n` jobs come before job `j` in the rotation. */
  ghost function Ahead(s: State, j: nat, n: nat): nat
    requires j < |s.jobs| && n <= |s.jobs|
  {
    if n == 0 then 0
    else Ahead(s, j, n - 1) + if Before(RotationKey(s, n - 1), RotationKey(s, j)) then 1 else 0
  }

  lemma {:induction false} AheadFollows(s: State, r: State, j: nat, n: nat)
    requires SameKeys(s, r) && j < |s.jobs| && n <= |s.jobs|
    ensures Ahead(r, j, n) == Ahead(s, j, n)
  {
    if n > 0 {
      KeysFollow(s, r, n - 1);
      KeysFollow(s, r, j);
      AheadFollows(s, r, j, n - 1);
    }
  }

  /** A claim sends its job behind every job that was recorded before. */
  lemma {:induction false} ClaimedGoesLast(s: State, scene: Scene, seconds: nat, k: nat)
    requires Claim(s, scene, seconds).Some? && k < |s.jobs| && Later(s, scene.now)
    ensures var (r, l) := Claim(s, scene, seconds).value;
      && |r.jobs| == |s.jobs| && l.job < |s.jobs|
      && RotationKey(r, l.job).turn == scene.now
      && (k != l.job ==> RotationKey(r, k) == RotationKey(s, k) && Before(RotationKey(r, k), RotationKey(r, l.job)))
  {
    var (r, l) := Claim(s, scene, seconds).value;
    assert r.attempts[..|s.attempts|] == s.attempts;
    TurnIsPast(s, scene.now, k);
    assert LastClaim(r.attempts, l.job) == Some(scene.now);
  }

  /** One job moved from before job `j` to behind it, all others stayed. */
  lemma {:induction false} OneFellBehind(s: State, r: State, j: nat, c: nat, n: nat)
    requires |r.jobs| == |s.jobs| && j < |s.jobs| && c < |s.jobs| && n <= |s.jobs|
    requires forall k :: 0 <= k < |s.jobs| && k != c ==> RotationKey(r, k) == RotationKey(s, k)
    requires j != c && Before(RotationKey(s, c), RotationKey(s, j)) && Before(RotationKey(r, j), RotationKey(r, c))
    ensures Ahead(r, j, n) + (if c < n then 1 else 0) == Ahead(s, j, n)
  {
    if n > 0 { OneFellBehind(s, r, j, c, n - 1); }
  }

  lemma {:induction false} ClaimShortensAhead(s: State, scene: Scene, seconds: nat, j: nat)
    requires Overlooks(s, ClaimTask(scene, seconds), j) && Claim(s, scene, seconds).Some?
    ensures var r := Claim(s, scene, seconds).value.0;
      |r.jobs| == |s.jobs| && Ahead(r, j, |s.jobs|) + 1 == Ahead(s, j, |s.jobs|)
  {
    var (r, l) := Claim(s, scene, seconds).value;
    forall k | 0 <= k < |s.jobs| && k != l.job ensures RotationKey(r, k) == RotationKey(s, k) {
      ClaimedGoesLast(s, scene, seconds, k);
    }
    ClaimedGoesLast(s, scene, seconds, j);
    OneFellBehind(s, r, j, l.job, |s.jobs|);
  }

  /** One job was added at the end, at time `at`; earlier jobs keep their keys. */
  ghost predicate AddsJob(s: State, r: State, at: nat) {
    && |r.jobs| == |s.jobs| + 1 && r.attempts == s.attempts && r.jobs[|s.jobs|].createdAt == at
    && forall k :: 0 <= k < |s.jobs| ==> r.jobs[k].createdAt == s.jobs[k].createdAt
  }

  lemma {:induction false} JoiningAddsJob(s: State, step: Step)
    requires Joins(s, step)
    ensures AddsJob(s, Apply(s, step), if step.Enqueue? then step.newJob.createdAt else step.now)
  {}

  lemma {:induction false} NewJobKeepsAhead(s: State, r: State, at: nat, j: nat, n: nat)
    requires AddsJob(s, r, at) && j < |s.jobs| && n <= |s.jobs|
    ensures Ahead(r, j, n) == Ahead(s, j, n)
  {
    if n > 0 { NewJobKeepsAhead(s, r, at, j, n - 1); }
  }

  lemma {:induction false} NewJobHasNoClaim(s: State, j: nat)
    requires forall a :: 0 <= a < |s.attempts| ==> s.attempts[a].job != j
    ensures LastClaim(s.attempts, j) == None
  {}

  lemma {:induction false} NewJobShortensNothing(s: State, r: State, at: nat, j: nat)
    requires AddsJob(s, r, at) && j < |s.jobs| && Later(s, at)
    requires forall a :: 0 <= a < |s.attempts| ==> s.attempts[a].job < |s.jobs|
    ensures Ahead(r, j, |r.jobs|) == Ahead(s, j, |s.jobs|)
  {
    NewJobKeepsAhead(s, r, at, j, |s.jobs|);
    NewJobHasNoClaim(s, |s.jobs|);
    TurnIsPast(s, at, j);
  }

  lemma {:induction false} ClaimNamesJobs(s: State, scene: Scene, seconds: nat)
    requires Claim(s, scene, seconds).Some? && forall a :: 0 <= a < |s.attempts| ==> s.attempts[a].job < |s.jobs|
    ensures var r := Claim(s, scene, seconds).value.0; forall a :: 0 <= a < |r.attempts| ==>
      r.attempts[a].job < |r.jobs|
  {}

  /** Each claim that overlooks job `j` uses up one job ahead of it. */
  lemma {:induction false} StepShortensAhead(s: State, step: Step, j: nat)
    requires Overlooks(s, step, j) && forall a :: 0 <= a < |s.attempts| ==> s.attempts[a].job < |s.jobs|
    ensures var r := Apply(s, step);
      && j < |r.jobs| && (forall a :: 0 <= a < |r.attempts| ==> r.attempts[a].job < |r.jobs|)
      && Ahead(r, j, |r.jobs|) + ClaimCount(s, step) <= Ahead(s, j, |s.jobs|)
  {
    var r := Apply(s, step);
    if step.ClaimTask? && Claim(s, step.scene, step.seconds).Some? {
      ClaimShortensAhead(s, step.scene, step.seconds, j);
      ClaimNamesJobs(s, step.scene, step.seconds);
    } else if Joins(s, step) {
      JoiningAddsJob(s, step);
      NewJobShortensNothing(s, r, if step.Enqueue? then step.newJob.createdAt else step.now, j);
    } else {
      StepSameKeys(s, step);
      AheadFollows(s, r, j, |s.jobs|);
      forall a | 0 <= a < |r.attempts| ensures r.attempts[a].job < |r.jobs| {
        assert SameTurn(s.attempts[a], r.attempts[a]);
      }
    }
  }

  ghost predicate RunOverlooks(s: State, steps: seq<Step>, j: nat)
    decreases |steps|
  {
    steps == [] || (RunOverlooks(s, steps[..|steps| - 1], j)
      && Overlooks(Run(s, steps[..|steps| - 1]), steps[|steps| - 1], j))
  }

  function Claims(s: State, steps: seq<Step>): nat
    decreases |steps|
  {
    if steps == [] then 0
    else Claims(s, steps[..|steps| - 1]) + ClaimCount(Run(s, steps[..|steps| - 1]), steps[|steps| - 1])
  }

  /** However the other transactions interleave, a job that stays pickable waits at most as many
      claims as there were jobs with an earlier rotation key. */
  lemma {:induction false} BoundedBypass(s: State, steps: seq<Step>, j: nat)
    requires j < |s.jobs| && (forall a :: 0 <= a < |s.attempts| ==> s.attempts[a].job < |s.jobs|)
    requires RunOverlooks(s, steps, j)
    ensures var r := Run(s, steps);
      && j < |r.jobs| && (forall a :: 0 <= a < |r.attempts| ==> r.attempts[a].job < |r.jobs|)
      && Claims(s, steps) + Ahead(r, j, |r.jobs|) <= Ahead(s, j, |s.jobs|)
    decreases |steps|
  {
    if steps != [] {
      var n := |steps| - 1;
      BoundedBypass(s, steps[..n], j);
      StepShortensAhead(Run(s, steps[..n]), steps[n], j);
    }
  }

  /** Once behind, always behind while `j` is overlooked. */
  lemma {:induction false} BehindStays(s: State, steps: seq<Step>, j: nat, k: nat)
    requires j < |s.jobs| && k < |s.jobs| && j != k && RunOverlooks(s, steps, j)
    requires Before(RotationKey(s, j), RotationKey(s, k))
    ensures var r := Run(s, steps);
      j < |r.jobs| && k < |r.jobs| && RotationKey(r, j) == RotationKey(s, j)
        && Before(RotationKey(r, j), RotationKey(r, k))
    decreases |steps|
  {
    if steps != [] {
      var n := |steps| - 1;
      BehindStays(s, steps[..n], j, k);
      StepKeepsBehind(Run(s, steps[..n]), steps[n], j, k);
    }
  }

  lemma {:induction false} StepKeepsBehind(s: State, step: Step, j: nat, k: nat)
    requires Overlooks(s, step, j) && k < |s.jobs| && j != k && Before(RotationKey(s, j), RotationKey(s, k))
    ensures var r := Apply(s, step);
      j < |r.jobs| && k < |r.jobs| && RotationKey(r, j) == RotationKey(s, j)
        && Before(RotationKey(r, j), RotationKey(r, k))
  {
    if step.ClaimTask? && Claim(s, step.scene, step.seconds).Some? {
      ClaimedGoesLast(s, step.scene, step.seconds, j);
      ClaimedGoesLast(s, step.scene, step.seconds, k);
    } else if Joins(s, step) {
      JoiningAddsJob(s, step);
    } else {
      StepSameKeys(s, step);
      KeysFollow(s, Apply(s, step), j);
      KeysFollow(s, Apply(s, step), k);
    }
  }

  /** A claim that passes over an admissible job takes none behind it. */
  lemma {:induction false} BehindIsNotClaimed(s: State, scene: Scene, seconds: nat, j: nat, k: nat)
    requires Overlooks(s, ClaimTask(scene, seconds), j) && k < |s.jobs| && Before(RotationKey(s, j), RotationKey(s, k))
    requires Claim(s, scene, seconds).Some?
    ensures Claim(s, scene, seconds).value.1.job != k
  {}

  /** No other job is claimed twice while `j` waits. */
  lemma {:induction false} NoSecondClaim(s: State, scene: Scene, seconds: nat, steps: seq<Step>, scene': Scene,
      seconds': nat, j: nat)
    requires Overlooks(s, ClaimTask(scene, seconds), j) && Claim(s, scene, seconds).Some?
    requires var m := Claim(s, scene, seconds).value.0;
      RunOverlooks(m, steps, j) && Overlooks(Run(m, steps), ClaimTask(scene', seconds'), j)
        && Claim(Run(m, steps), scene', seconds').Some?
    ensures var (m, l) := Claim(s, scene, seconds).value; Claim(Run(m, steps), scene', seconds').value.1.job != l.job
  {
    var (m, l) := Claim(s, scene, seconds).value;
    ClaimedGoesLast(s, scene, seconds, j);
    BehindStays(m, steps, j, l.job);
    BehindIsNotClaimed(Run(m, steps), scene', seconds', j, l.job);
  }
}
