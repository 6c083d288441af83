/** Leases, fences and job rotation (src/packages/jobs/queue.py). */
module Queue {
  import opened Wrappers
  import opened Rows

  /** What one claim sees besides the tables: rows other transactions hold, and the
      jobs the resource policy refuses. */
  datatype Scene = Scene(now: nat, lockedJobs: set<nat>, lockedTasks: set<nat>, refused: set<nat>)

  /** Rotation key: last claim or creation, then creation, then identifier. */
  datatype Key = Key(turn: nat, created: nat, id: nat)

  predicate Before(a: Key, b: Key) {
    a.turn < b.turn || (a.turn == b.turn && (a.created < b.created || (a.created == b.created && a.id < b.id)))
  }

  /** Time of a job's latest attempt. */
  function LastClaim(attempts: seq<AttemptRow>, j: nat): (r: Option<nat>)
    ensures r.Some? ==> exists a :: 0 <= a < |attempts| && attempts[a].job == j && attempts[a].createdAt == r.value
    ensures forall a :: 0 <= a < |attempts| && attempts[a].job == j ==> r.Some? && attempts[a].createdAt <= r.value
  {
    if attempts == [] then None
    else
      var last := |attempts| - 1;
      var earlier := LastClaim(attempts[..last], j);
      if attempts[last].job != j then earlier
      else if earlier.Some? && attempts[last].createdAt < earlier.value then earlier
      else Some(attempts[last].createdAt)
  }

  function RotationKey(s: State, j: nat): Key
    requires j < |s.jobs|
  {
    var last := LastClaim(s.attempts, j);
    Key(if last.Some? then last.value else s.jobs[j].createdAt, s.jobs[j].createdAt, j)
  }

  /** Jobs stopped by an older worker that may use their saved configuration revision. */
  predicate FrozenConfigWait(job: JobRow) {
    job.status.WaitingConfig? && job.stage in {"translate", "translating", "candidate", "semantic_review"}
    && job.error == "PROVIDER_PROFILE_STALE" && job.savedRevision
  }

  predicate Due(s: State, t: nat, j: nat, now: nat)
    requires t < |s.tasks|
  {
    s.tasks[t].job == j && s.tasks[t].status.Pending? && s.tasks[t].availableAt <= now
  }

  predicate Candidate(s: State, j: nat, sc: Scene)
    requires j < |s.jobs|
  {
    && (s.jobs[j].status.Pending? || s.jobs[j].status.Running? || FrozenConfigWait(s.jobs[j]))
    && j !in sc.lockedJobs
    && exists t :: 0 <= t < |s.tasks| && Due(s, t, j, sc.now)
  }

  predicate Ready(s: State, t: nat, j: nat, sc: Scene)
    requires t < |s.tasks|
  {
    Due(s, t, j, sc.now) && t !in sc.lockedTasks
  }

  /** A candidate the claim loop would stop at. */
  predicate Pickable(s: State, j: nat, sc: Scene)
    requires j < |s.jobs|
  {
    Candidate(s, j, sc) && j !in sc.refused && exists t :: 0 <= t < |s.tasks| && Ready(s, t, j, sc)
  }

  /** The pickable job with the least rotation key among the first `n`. */
  function PickJob(s: State, n: nat, sc: Scene): (r: Option<nat>)
    requires n <= |s.jobs|
    ensures r.Some? ==> r.value < n && Pickable(s, r.value, sc)
    ensures r.Some? ==> forall k :: 0 <= k < n && k != r.value && Pickable(s, k, sc) ==>
      Before(RotationKey(s, r.value), RotationKey(s, k))
    ensures r.None? ==> forall k :: 0 <= k < n ==> !Pickable(s, k, sc)
  {
    if n == 0 then None
    else
      var best := PickJob(s, n - 1, sc);
      if !Pickable(s, n - 1, sc) then best
      else if best.Some? && Before(RotationKey(s, best.value), RotationKey(s, n - 1)) then best
      else Some(n - 1)
  }

  predicate Older(s: State, a: nat, b: nat)
    requires a < |s.tasks| && b < |s.tasks|
  {
    s.tasks[a].createdAt < s.tasks[b].createdAt || (s.tasks[a].createdAt == s.tasks[b].createdAt && a <= b)
  }

  /** The oldest ready task of a job among the first `n`. */
  function PickTask(s: State, n: nat, j: nat, sc: Scene): (r: Option<nat>)
    requires n <= |s.tasks|
    ensures r.Some? ==> r.value < n && Ready(s, r.value, j, sc)
    ensures r.Some? ==> forall t :: 0 <= t < n && Ready(s, t, j, sc) ==> Older(s, r.value, t)
    ensures r.None? ==> forall t :: 0 <= t < n ==> !Ready(s, t, j, sc)
  {
    if n == 0 then None
    else
      var best := PickTask(s, n - 1, j, sc);
      if !Ready(s, n - 1, j, sc) then best
      else if best.Some? && s.tasks[best.value].createdAt <= s.tasks[n - 1].createdAt then best
      else Some(n - 1)
  }

  function LeaseFor(s: State, j: nat, t: nat): Lease
    requires j < |s.jobs| && t < |s.tasks|
  {
    Lease(t, j, |s.attempts|, s.tasks[t].fence + 1, s.jobs[j].epoch)
  }

  function Claimed(s: State, j: nat, t: nat, now: nat, seconds: nat): State
    requires j < |s.jobs| && t < |s.tasks|
  {
    var task := s.tasks[t];
    var row := task.(status := TaskStatus.Leased, fence := task.fence + 1, attempts := task.attempts + 1,
      expires := now + seconds);
    var attempt := AttemptRow(t, j, row.fence, s.jobs[j].epoch, now, AttemptState.Created, None, None, {}, None);
    PutJob(PutTask(s, t, row), j, s.jobs[j].(status := JobStatus.Running)).(attempts := s.attempts + [attempt])
  }

  /** `None` when nothing is claimed: maintenance, no pickable job, or a deleted document. */
  function Claim(s: State, sc: Scene, seconds: nat): Option<(State, Lease)> {
    if s.settings.maintenance then None
    else
      match PickJob(s, |s.jobs|, sc)
      case None => None
      case Some(j) =>
        var t := PickTask(s, |s.tasks|, j, sc).value;
        if Tombstoned(s, s.jobs[j]) && s.tasks[t].kind != "cleanup" then None
        else Some((Claimed(s, j, t, sc.now, seconds), LeaseFor(s, j, t)))
  }

  const RUNNING: set<JobStatus> := {JobStatus.Running}

  /** The first failed requirement of `assert_current`, or "". `memo` holds the leases
      already checked by the same transaction; for those only the clock is not read again. */
  function CurrentError(s: State, l: Lease, now: nat, memo: set<Lease>, allowed: set<JobStatus>): string
    requires Issued(s, l)
  {
    var task, job := s.tasks[l.task], s.jobs[l.job];
    if s.settings.maintenance then "MAINTENANCE"
    else if task.fence != l.fence || !task.status.Leased? || (l !in memo && task.expires <= now) then "FENCE_EXPIRED"
    else if job.epoch != l.epoch || job.status !in allowed then "CONTROL_CHANGED"
    else if Tombstoned(s, job) && task.kind != "cleanup" then "DOCUMENT_DELETED"
    else ""
  }

  predicate CanRenew(s: State, l: Lease, now: nat)
    requires Issued(s, l)
  {
    var task := s.tasks[l.task];
    && !s.settings.maintenance && task.fence == l.fence && task.status.Leased? && now < task.expires
    && s.jobs[l.job].epoch == l.epoch
  }

  function Renew(s: State, l: Lease, now: nat, seconds: nat): State
    requires Issued(s, l)
  {
    if CanRenew(s, l, now) then PutTask(s, l.task, s.tasks[l.task].(expires := now + seconds)) else s
  }

  predicate Unfinished(s: State, j: nat) {
    exists t :: 0 <= t < |s.tasks| && s.tasks[t].job == j && (s.tasks[t].status.Pending? || s.tasks[t].status.Leased?)
  }

  function Finish(s: State, l: Lease, now: nat, memo: set<Lease>, status: JobStatus): Result<State, string>
    requires Issued(s, l)
  {
    var code := CurrentError(s, l, now, memo, {JobStatus.Running, JobStatus.Pending});
    if code != "" then Failure(code)
    else
      var a := s.attempts[l.attempt];
      var s1 := PutTask(s, l.task, s.tasks[l.task].(status := TaskStatus.Succeeded));
      var s2 := PutAttempt(s1, l.attempt, if a.state.Created? then a.(state := AttemptState.Succeeded) else a);
      Success(if Unfinished(s2, l.job) then s2 else PutJob(s2, l.job, s2.jobs[l.job].(status := status)))
  }

  predicate HasValidatedCheckpoint(s: State, t: nat)
    requires t < |s.tasks|
  {
    && s.tasks[t].work.Some?
    && exists a ::
      && 0 <= a < |s.attempts| && s.attempts[a].task == t && s.attempts[a].state.Settled?
      && s.tasks[t].work.value in s.attempts[a].validated
  }

  predicate Expired(s: State, t: nat, now: nat) {
    t < |s.tasks| && s.tasks[t].job < |s.jobs| && s.tasks[t].status.Leased? && s.tasks[t].expires <= now
  }

  predicate Uncertain(s: State, found: Option<nat>)
    requires found.Some? ==> found.value < |s.attempts|
  {
    found.Some? && (Holds(s.attempts[found.value], PermitState.Reserved)
      || Holds(s.attempts[found.value], PermitState.Unknown))
  }

  /** The newest attempt of an expired lease: its request, if any, is of unknown outcome. */
  function ClosedAttempt(a: AttemptRow): AttemptRow {
    if Holds(a, PermitState.Reserved) || Holds(a, PermitState.Unknown) then
      SetPermit(a, PermitState.Unknown).(state := AttemptState.OutcomeUnknown)
    else if a.state.Created? then a.(state := AttemptState.Failed) else a
  }

  /** Where recovery leaves the task and its job. */
  datatype Verdict = Verdict(task: TaskStatus, job: JobStatus, error: string)

  function RecoveryVerdict(s: State, t: nat, uncertain: bool): (v: Verdict)
    requires t < |s.tasks| && s.tasks[t].job < |s.jobs|
    ensures !v.task.Leased? && !v.task.Succeeded? && (uncertain <==> v.task.OutcomeUnknown?)
    ensures v.task.Pending? ==>
      s.tasks[t].kind != "provider_test" && (s.tasks[t].attempts < 3 || HasValidatedCheckpoint(s, t))
  {
    var task, job := s.tasks[t], s.jobs[s.tasks[t].job];
    if uncertain then Verdict(TaskStatus.OutcomeUnknown, JobStatus.OutcomeUnknown, job.error)
    else if job.status.Cancelled? || job.status.CancelRequested? then
      Verdict(TaskStatus.Cancelled, job.status, job.error)
    else if task.kind == "provider_test" then Verdict(TaskStatus.Failed, JobStatus.Failed, "PROVIDER_TEST_INTERRUPTED")
    else if HasValidatedCheckpoint(s, t) then
      Verdict(TaskStatus.Pending, if job.status.Running? then JobStatus.Pending else job.status, job.error)
    else if task.attempts >= 3 then Verdict(TaskStatus.Failed, JobStatus.Failed, "ATTEMPT_LIMIT")
    else Verdict(TaskStatus.Pending, if job.status.Paused? then job.status else JobStatus.Pending, job.error)
  }

  function RecoverTask(s: State, t: nat): State
    requires t < |s.tasks| && s.tasks[t].job < |s.jobs|
  {
    var found := FindAttempt(s.attempts, t, s.tasks[t].fence);
    var v := RecoveryVerdict(s, t, Uncertain(s, found));
    var s1 := if found.Some? then PutAttempt(s, found.value, ClosedAttempt(s.attempts[found.value])) else s;
    PutJob(PutTask(s1, t, s.tasks[t].(status := v.task)), s.tasks[t].job,
      s.jobs[s.tasks[t].job].(status := v.job, error := v.error))
  }

  /** Recovery rewrites the task's status, its job's status and error, and its newest attempt. */
  lemma {:induction false} RecoverTaskRows(s: State, t: nat)
    requires t < |s.tasks| && s.tasks[t].job < |s.jobs|
    ensures var r, j := RecoverTask(s, t), s.tasks[t].job;
      && |r.jobs| == |s.jobs| && |r.tasks| == |s.tasks| && |r.attempts| == |s.attempts| && r.settings == s.settings
      && r.deleted == s.deleted
      && r.jobs == s.jobs[j := s.jobs[j].(status := r.jobs[j].status, error := r.jobs[j].error)]
      && r.tasks == s.tasks[t := s.tasks[t].(status := r.tasks[t].status)]
      && match FindAttempt(s.attempts, t, s.tasks[t].fence)
         case None => r.attempts == s.attempts
         case Some(a) =>
           r.attempts == s.attempts[a := s.attempts[a].(state := r.attempts[a].state, permit := r.attempts[a].permit)]
  {}

  /** Recovery in the order the database returns the expired rows. */
  function RecoverAll(s: State, now: nat, order: seq<nat>): State
    decreases |order|
  {
    if order == [] then s
    else RecoverAll(if Expired(s, order[0], now) then RecoverTask(s, order[0]) else s, now, order[1..])
  }

  lemma {:induction false} RecoverAllLast(s: State, now: nat, order: seq<nat>, t: nat)
    ensures RecoverAll(s, now, order + [t]) ==
      var m := RecoverAll(s, now, order); if Expired(m, t, now) then RecoverTask(m, t) else m
    decreases |order|
  {
    if order == [] {
      assert [] + [t] == [t];
    } else {
      assert (order + [t])[1..] == order[1..] + [t];
      RecoverAllLast(if Expired(s, order[0], now) then RecoverTask(s, order[0]) else s, now, order[1..], t);
    }
  }

  function RecoverExpired(s: State, now: nat, order: seq<nat>): State {
    if s.settings.maintenance then s else RecoverAll(s, now, order)
  }
}
