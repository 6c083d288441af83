/** Task and permit safety over every run of the protocol. */
module Safety {
  import opened Wrappers
  import opened Rows
  import opened Queue
  import opened Ledger
  import opened Executor
  import opened Control
  import opened Deletion
  import opened Steps

  /** Foreign keys, fences never ahead of their task, one attempt per task and fence. */
  ghost predicate Linked(s: State) {
    && (forall t :: 0 <= t < |s.tasks| ==> s.tasks[t].job < |s.jobs|)
    && (forall a :: 0 <= a < |s.attempts| ==>
         s.attempts[a].task < |s.tasks| && s.attempts[a].job == s.tasks[s.attempts[a].task].job
           && s.attempts[a].fence <= s.tasks[s.attempts[a].task].fence)
    && (forall a, b :: 0 <= a < b < |s.attempts| && s.attempts[a].task == s.attempts[b].task ==>
      s.attempts[a].fence != s.attempts[b].fence)
  }

  /** A request in flight belongs to its task's newest attempt, and that task is still leased,
      has just succeeded or was cancelled: never pending, failed or of unknown outcome. */
  ghost predicate FlightKept(s: State, a: nat)
    requires a < |s.attempts| && s.attempts[a].task < |s.tasks|
  {
    var task := s.tasks[s.attempts[a].task];
    && task.fence == s.attempts[a].fence && s.attempts[a].state.Dispatching?
    && (task.status.Leased? || task.status.Succeeded? || task.status.Cancelled?)
  }

  function PermitsIssued(attempts: seq<AttemptRow>, t: nat): nat {
    if attempts == [] then 0
    else
      var last := attempts[|attempts| - 1];
      PermitsIssued(attempts[..|attempts| - 1], t) + if last.task == t && last.permit.Some? then 1 else 0
  }

  /** A running lease whose attempt has not asked for a permit yet. */
  ghost predicate Unspent(s: State, t: nat)
    requires t < |s.tasks|
  {
    s.tasks[t].status.Leased?
    && forall a :: 0 <= a < |s.attempts| && s.attempts[a].task == t && s.attempts[a].fence == s.tasks[t].fence ==>
      s.attempts[a].permit.None?
  }

  ghost predicate AllowanceCovers(s: State, t: nat)
    requires t < |s.tasks|
  {
    PermitsIssued(s.attempts, t) + (if Unspent(s, t) then 1 else 0) <= s.tasks[t].attempts
  }

  /** What every transaction keeps when it is called in its place. */
  ghost predicate Kept(s: State) {
    && Linked(s)
    && (forall a :: 0 <= a < |s.attempts| && Holds(s.attempts[a], PermitState.Reserved) ==> FlightKept(s, a))
    && (forall t :: 0 <= t < |s.tasks| ==> AllowanceCovers(s, t))
  }

  /** A request in flight of a cancelled task: its answer is accounted for but wanted by nobody. */
  ghost predicate Stranded(s: State, a: nat)
    requires a < |s.attempts|
  {
    Holds(s.attempts[a], PermitState.Reserved) && s.attempts[a].task < |s.tasks|
      && s.tasks[s.attempts[a].task].status.Cancelled?
  }

  ghost predicate Safe(s: State) {
    Kept(s) && forall a :: 0 <= a < |s.attempts| ==> !Stranded(s, a)
  }

  /** No task whose newest request is in flight becomes cancelled. */
  ghost predicate CancelsNone(s: State, r: State) {
    forall a :: 0 <= a < |r.attempts| && Stranded(r, a) ==> a < |s.attempts| && Stranded(s, a)
  }

  lemma {:induction false} CancelsNoneSafe(s: State, r: State)
    requires Kept(r) && CancelsNone(s, r)
    ensures Safe(s) ==> Safe(r)
  {}

  /** Permits only move forward; amounts are fixed when issued, and a settled one is final. */
  function Rank(state: PermitState): nat {
    match state case Reserved => 0 case Released => 1 case Unknown => 2 case Settled => 3
  }

  ghost predicate Moves(p: Permit, q: Permit) {
    && q.price == p.price && q.controlled == p.controlled && q.reserved == p.reserved
    && Rank(p.state) <= Rank(q.state) && (p.state.Settled? ==> q == p)
  }

  ghost predicate SameAttempt(a: AttemptRow, b: AttemptRow) {
    && a.task == b.task && a.job == b.job && a.fence == b.fence && a.epoch == b.epoch && a.createdAt == b.createdAt
    && a.permit.Some? == b.permit.Some? && (a.permit.Some? ==> Moves(a.permit.value, b.permit.value))
  }

  ghost predicate SameTask(t: TaskRow, u: TaskRow) {
    t.job == u.job && t.fence == u.fence && t.attempts == u.attempts && (u.status.Leased? ==> t.status.Leased?)
  }

  /** A step that hands out nothing: no lease, no permit, no allowance. */
  ghost predicate Quiet(s: State, r: State) {
    && |r.jobs| == |s.jobs| && |r.tasks| == |s.tasks| && |r.attempts| == |s.attempts|
    && (forall t :: 0 <= t < |s.tasks| ==> SameTask(s.tasks[t], r.tasks[t]))
    && (forall a :: 0 <= a < |s.attempts| ==> SameAttempt(s.attempts[a], r.attempts[a]))
    && (forall a ::
         0 <= a < |s.attempts| && Holds(r.attempts[a], PermitState.Reserved) && s.attempts[a].task < |s.tasks| ==>
         && Holds(s.attempts[a], PermitState.Reserved) && r.attempts[a].state == s.attempts[a].state
         && (r.tasks[s.attempts[a].task].status == s.tasks[s.attempts[a].task].status
           || r.tasks[s.attempts[a].task].status.Succeeded?))
  }

  lemma {:induction false} SamePermitsIssued(p: seq<AttemptRow>, q: seq<AttemptRow>, t: nat)
    requires |p| == |q| && forall a :: 0 <= a < |p| ==> p[a].task == q[a].task && p[a].permit.Some? == q[a].permit.Some?
    ensures PermitsIssued(p, t) == PermitsIssued(q, t)
  {
    if p != [] {
      SamePermitsIssued(p[..|p| - 1], q[..|q| - 1], t);
    }
  }

  lemma {:induction false} QuietKeeps(s: State, r: State)
    requires Kept(s) && Quiet(s, r)
    ensures Kept(r)
  {
    forall t | 0 <= t < |r.tasks| ensures AllowanceCovers(r, t) {
      assert SameTask(s.tasks[t], r.tasks[t]) && AllowanceCovers(s, t);
      forall a | 0 <= a < |s.attempts| ensures SameAttempt(s.attempts[a], r.attempts[a]) {}
      SamePermitsIssued(s.attempts, r.attempts, t);
      if Unspent(r, t) {
        forall a | 0 <= a < |s.attempts| && s.attempts[a].task == t && s.attempts[a].fence == s.tasks[t].fence
          ensures s.attempts[a].permit.None?
        {
          assert SameAttempt(s.attempts[a], r.attempts[a]);
        }
        assert Unspent(s, t);
      }
    }
    assert Linked(r) by {
      forall a | 0 <= a < |r.attempts|
        ensures r.attempts[a].task < |r.tasks| && r.attempts[a].job == r.tasks[r.attempts[a].task].job
        ensures r.attempts[a].fence <= r.tasks[r.attempts[a].task].fence
      {
        assert SameAttempt(s.attempts[a], r.attempts[a]);
        assert SameTask(s.tasks[s.attempts[a].task], r.tasks[s.attempts[a].task]);
      }
      forall t | 0 <= t < |r.tasks| ensures r.tasks[t].job < |r.jobs| {
        assert SameTask(s.tasks[t], r.tasks[t]);
      }
      forall a, b | 0 <= a < b < |r.attempts| && r.attempts[a].task == r.attempts[b].task
        ensures r.attempts[a].fence != r.attempts[b].fence
      {
        assert SameAttempt(s.attempts[a], r.attempts[a]) && SameAttempt(s.attempts[b], r.attempts[b]);
      }
    }
    forall a | 0 <= a < |r.attempts| && Holds(r.attempts[a], PermitState.Reserved) ensures FlightKept(r, a) {
      assert SameAttempt(s.attempts[a], r.attempts[a]);
      assert SameTask(s.tasks[s.attempts[a].task], r.tasks[s.attempts[a].task]);
      assert FlightKept(s, a);
    }
  }

  lemma {:induction false} QuietTrans(s: State, m: State, r: State)
    requires Quiet(s, m) && Quiet(m, r)
    ensures Quiet(s, r)
  {
    forall a | 0 <= a < |s.attempts| ensures SameAttempt(s.attempts[a], r.attempts[a]) {
      assert SameAttempt(s.attempts[a], m.attempts[a]) && SameAttempt(m.attempts[a], r.attempts[a]);
    }
    forall t | 0 <= t < |s.tasks| ensures SameTask(s.tasks[t], r.tasks[t]) {
      assert SameTask(s.tasks[t], m.tasks[t]) && SameTask(m.tasks[t], r.tasks[t]);
    }
    forall a | 0 <= a < |s.attempts| && Holds(r.attempts[a], PermitState.Reserved) && s.attempts[a].task < |s.tasks|
      ensures && Holds(s.attempts[a], PermitState.Reserved) && r.attempts[a].state == s.attempts[a].state
              && (r.tasks[s.attempts[a].task].status == s.tasks[s.attempts[a].task].status
                || r.tasks[s.attempts[a].task].status.Succeeded?)
    {
      assert SameAttempt(s.attempts[a], m.attempts[a]);
    }
  }

  ghost predicate OnlyFlightOf(s: State, t: nat, a: nat) {
    forall b :: 0 <= b < |s.attempts| && s.attempts[b].task == t && Holds(s.attempts[b], PermitState.Reserved) ==>
      b == a
  }

  /** The only attempt of a task that can be in flight is the given current one. */
  lemma {:induction false} OnlyCurrentInFlight(s: State, t: nat, a: nat)
    requires Kept(s) && t < |s.tasks| && a < |s.attempts| && s.attempts[a].task == t
    requires s.attempts[a].fence == s.tasks[t].fence
    ensures OnlyFlightOf(s, t, a)
  {
    forall b | 0 <= b < |s.attempts| && s.attempts[b].task == t && Holds(s.attempts[b], PermitState.Reserved)
      ensures b == a
    {
      assert FlightKept(s, b);
    }
  }

  /** A new status leaves the requests in flight of task `t` alone only if there is none, or if
      the status stays or becomes succeeded. */
  ghost predicate MayBecome(s: State, t: nat, status: TaskStatus, except: set<nat>)
    requires t < |s.tasks|
  {
    || status == s.tasks[t].status || status.Succeeded?
    || forall b :: 0 <= b < |s.attempts| && s.attempts[b].task == t && Holds(s.attempts[b], PermitState.Reserved) ==>
      b in except
  }

  lemma {:induction false} TaskEditQuiet(s: State, r: State, t: nat)
    requires Kept(s) && t < |s.tasks| && |r.jobs| == |s.jobs| && r.attempts == s.attempts
    requires |r.tasks| == |s.tasks| && r.tasks == s.tasks[t := r.tasks[t]] && SameTask(s.tasks[t], r.tasks[t])
    requires MayBecome(s, t, r.tasks[t].status, {})
    ensures Quiet(s, r)
  {}

  lemma {:induction false} AttemptEditQuiet(s: State, r: State, t: nat, a: nat)
    requires Kept(s) && t < |s.tasks| && a < |s.attempts| && s.attempts[a].task == t && |r.jobs| == |s.jobs|
    requires |r.tasks| == |s.tasks| && r.tasks == s.tasks[t := r.tasks[t]] && SameTask(s.tasks[t], r.tasks[t])
    requires |r.attempts| == |s.attempts| && r.attempts == s.attempts[a := r.attempts[a]]
    requires SameAttempt(s.attempts[a], r.attempts[a])
    requires Holds(r.attempts[a], PermitState.Reserved) ==>
      Holds(s.attempts[a], PermitState.Reserved) && r.attempts[a].state == s.attempts[a].state
    requires MayBecome(s, t, r.tasks[t].status, if Holds(r.attempts[a], PermitState.Reserved) then {} else {a})
    ensures Quiet(s, r)
  {}

  /** `r` rewrites only task `t`, its attempt `a` and job rows, and hands out nothing. */
  ghost predicate Edits(s: State, r: State, t: nat, a: nat) {
    && t < |s.tasks| && a < |s.attempts| && s.attempts[a].task == t
    && |r.jobs| == |s.jobs| && |r.tasks| == |s.tasks| && |r.attempts| == |s.attempts|
    && r.tasks == s.tasks[t := r.tasks[t]] && SameTask(s.tasks[t], r.tasks[t])
    && r.attempts == s.attempts[a := r.attempts[a]] && SameAttempt(s.attempts[a], r.attempts[a])
    && (Holds(r.attempts[a], PermitState.Reserved) ==>
         && Holds(s.attempts[a], PermitState.Reserved) && r.attempts[a].state == s.attempts[a].state
         && (r.tasks[t].status == s.tasks[t].status || r.tasks[t].status.Succeeded?))
  }

  lemma {:induction false} CurrentEditQuiet(s: State, r: State, t: nat, a: nat)
    requires Kept(s) && Edits(s, r, t, a)
    requires r.tasks[t].status == s.tasks[t].status || s.attempts[a].fence == s.tasks[t].fence
    ensures Quiet(s, r)
  {
    if s.attempts[a].fence == s.tasks[t].fence {
      OnlyCurrentInFlight(s, t, a);
    }
    AttemptEditQuiet(s, r, t, a);
  }

  lemma {:induction false} RecoverEdits(s: State, t: nat, a: nat)
    requires t < |s.tasks| && s.tasks[t].job < |s.jobs| && s.tasks[t].status.Leased?
    requires FindAttempt(s.attempts, t, s.tasks[t].fence) == Some(a)
    requires Holds(s.attempts[a], PermitState.Reserved) ==> s.attempts[a].state.Dispatching?
    ensures Edits(s, RecoverTask(s, t), t, a)
  {}

  lemma {:induction false} RecoverTaskQuiet(s: State, t: nat)
    requires Kept(s) && t < |s.tasks| && s.tasks[t].status.Leased?
    ensures Quiet(s, RecoverTask(s, t))
  {
    var found := FindAttempt(s.attempts, t, s.tasks[t].fence);
    if found.Some? {
      assert Holds(s.attempts[found.value], PermitState.Reserved) ==> FlightKept(s, found.value);
      RecoverEdits(s, t, found.value);
      CurrentEditQuiet(s, RecoverTask(s, t), t, found.value);
    } else {
      forall b | 0 <= b < |s.attempts| && Holds(s.attempts[b], PermitState.Reserved) ensures s.attempts[b].task != t {
        assert FlightKept(s, b);
      }
      TaskEditQuiet(s, RecoverTask(s, t), t);
    }
  }

  /** No longer leased, and without a request in flight. */
  ghost predicate Closed(s: State, t: nat)
    requires t < |s.tasks|
  {
    !s.tasks[t].status.Leased? && forall a :: 0 <= a < |s.attempts| && s.attempts[a].task == t ==>
      !Holds(s.attempts[a], PermitState.Reserved)
  }

  lemma {:induction false} RecoverTaskCloses(s: State, t: nat)
    requires Kept(s) && t < |s.tasks| && s.tasks[t].status.Leased?
    ensures |RecoverTask(s, t).tasks| == |s.tasks| && Closed(RecoverTask(s, t), t)
  {
    var r := RecoverTask(s, t);
    RecoverTaskRows(s, t);
    forall a | 0 <= a < |r.attempts| && r.attempts[a].task == t ensures !Holds(r.attempts[a], PermitState.Reserved) {
      if Holds(s.attempts[a], PermitState.Reserved) {
        assert FlightKept(s, a);
        assert FindAttempt(s.attempts, t, s.tasks[t].fence) == Some(a);
      }
    }
  }

  lemma {:induction false} QuietClosed(s: State, r: State, t: nat)
    requires Kept(s) && Quiet(s, r) && t < |s.tasks| && Closed(s, t)
    ensures Closed(r, t)
  {
    assert SameTask(s.tasks[t], r.tasks[t]);
    forall a | 0 <= a < |r.attempts| && r.attempts[a].task == t ensures !Holds(r.attempts[a], PermitState.Reserved) {
      assert SameAttempt(s.attempts[a], r.attempts[a]);
    }
  }

  /** Recovery hands out nothing, in any order of rows, and every expired task it meets loses
      its lease and its request in flight. */
  lemma {:induction false} RecoverAllQuiet(s: State, now: nat, order: seq<nat>)
    requires Kept(s)
    ensures var r := RecoverAll(s, now, order);
      Quiet(s, r) && forall k :: 0 <= k < |order| && Expired(s, order[k], now) ==> Closed(r, order[k])
    decreases |order|
  {
    if order != [] {
      var t := order[0];
      var m := if Expired(s, t, now) then RecoverTask(s, t) else s;
      if Expired(s, t, now) { RecoverTaskQuiet(s, t); RecoverTaskCloses(s, t); } else { QuietSame(s); }
      QuietKeeps(s, m);
      RecoverAllQuiet(m, now, order[1..]);
      var r := RecoverAll(m, now, order[1..]);
      QuietTrans(s, m, r);
      forall k | 0 <= k < |order| && Expired(s, order[k], now) ensures Closed(r, order[k]) {
        if order[k] == t { QuietClosed(m, r, t); }
        else { RecoverOthersExpire(s, t, order[k], now); assert order[1..][k - 1] == order[k]; }
      }
    } else {
      QuietSame(s);
    }
  }

  lemma {:induction false} RecoverOthersExpire(s: State, t: nat, u: nat, now: nat)
    requires Expired(s, u, now) && t != u
    ensures Expired(if Expired(s, t, now) then RecoverTask(s, t) else s, u, now)
  {
    if Expired(s, t, now) { RecoverTaskRows(s, t); }
  }

  lemma {:induction false} UncertainOneQuiet(s: State, a: nat)
    requires Kept(s) && a < |s.attempts|
    ensures Quiet(s, UncertainOne(s, a))
  {
    if Holds(s.attempts[a], PermitState.Reserved) {
      assert FlightKept(s, a);
      OnlyCurrentInFlight(s, s.attempts[a].task, a);
      AttemptEditQuiet(s, UncertainOne(s, a), s.attempts[a].task, a);
    }
  }

  lemma {:induction false} UncertainNextQuiet(s: State, m: State, a: nat)
    requires Kept(s) && Quiet(s, m) && a < |m.attempts|
    ensures Quiet(s, UncertainOne(m, a))
  {
    QuietKeeps(s, m);
    UncertainOneQuiet(m, a);
    QuietTrans(s, m, UncertainOne(m, a));
  }

  lemma {:induction false} QuietSame(s: State)
    ensures Quiet(s, s)
  {}

  /** The request of attempt `a` is uncertain, so are its task and its job, and every lease of
      the job is overtaken. */
  ghost predicate Doubted(s: State, r: State, a: nat)
    requires a < |s.attempts| && s.attempts[a].task < |s.tasks| && s.attempts[a].job < |s.jobs|
  {
    var t, j := s.attempts[a].task, s.attempts[a].job;
    && a < |r.attempts| && t < |r.tasks| && j < |r.jobs|
    && Holds(r.attempts[a], PermitState.Unknown) && r.attempts[a].state.OutcomeUnknown?
    && r.tasks[t].status.OutcomeUnknown? && r.jobs[j].status.OutcomeUnknown? && s.jobs[j].epoch < r.jobs[j].epoch
  }

  /** The first `n` attempts are no longer in flight; those that were are doubted. */
  ghost predicate AllDoubted(s: State, r: State, n: nat)
    requires Linked(s) && n <= |s.attempts| <= |r.attempts|
  {
    && (forall a :: 0 <= a < n ==> !Holds(r.attempts[a], PermitState.Reserved))
    && (forall a :: 0 <= a < n && Holds(s.attempts[a], PermitState.Reserved) ==> Doubted(s, r, a))
  }

  lemma {:induction false} DoubtNext(s: State, m: State, n: nat)
    requires Kept(s) && Quiet(s, m) && n < |s.attempts| && AllDoubted(s, m, n) && m.attempts[n] == s.attempts[n]
    requires forall j :: 0 <= j < |s.jobs| ==> s.jobs[j].epoch <= m.jobs[j].epoch
    ensures |UncertainOne(m, n).attempts| == |m.attempts| && AllDoubted(s, UncertainOne(m, n), n + 1)
  {
    var r := UncertainOne(m, n);
    UncertainOneDoubts(s, m, n);
    forall a | 0 <= a < n ensures !Holds(r.attempts[a], PermitState.Reserved) { DoubtedStays(s, m, n, a); }
    forall a | 0 <= a < n && Holds(s.attempts[a], PermitState.Reserved) ensures Doubted(s, r, a) {
      DoubtedStays(s, m, n, a);
    }
  }

  lemma {:induction false} UncertainQuiet(s: State, n: nat)
    requires Kept(s) && n <= |s.attempts|
    ensures Quiet(s, UncertainInflight(s, n))
  {
    if n > 0 {
      UncertainQuiet(s, n - 1);
      UncertainNextQuiet(s, UncertainInflight(s, n - 1), n - 1);
    } else {
      QuietSame(s);
    }
  }

  lemma {:induction false} UncertainDoubts(s: State, n: nat)
    requires Kept(s) && n <= |s.attempts|
    ensures AllDoubted(s, UncertainInflight(s, n), n)
  {
    if n > 0 {
      UncertainDoubts(s, n - 1);
      UncertainNextDoubts(s, n - 1);
    }
  }

  lemma {:induction false} UncertainNextDoubts(s: State, n: nat)
    requires Kept(s) && n < |s.attempts| && AllDoubted(s, UncertainInflight(s, n), n)
    ensures AllDoubted(s, UncertainInflight(s, n + 1), n + 1)
  {
    UncertainQuiet(s, n);
    UncertainRest(s, n);
    DoubtNext(s, UncertainInflight(s, n), n);
  }

  /** Maintenance hands out nothing, leaves no request in flight and makes each uncertain. */
  lemma {:induction false} UncertainInflightQuiet(s: State, n: nat)
    requires Kept(s) && n <= |s.attempts|
    ensures Quiet(s, UncertainInflight(s, n)) && AllDoubted(s, UncertainInflight(s, n), n)
  {
    UncertainQuiet(s, n);
    UncertainDoubts(s, n);
  }

  lemma {:induction false} DoubtedStays(s: State, m: State, b: nat, a: nat)
    requires Kept(s) && Quiet(s, m) && b < |m.attempts| && a < |s.attempts| && a != b
    requires !Holds(m.attempts[a], PermitState.Reserved)
    requires Holds(s.attempts[a], PermitState.Reserved) ==> Doubted(s, m, a)
    ensures !Holds(UncertainOne(m, b).attempts[a], PermitState.Reserved)
    ensures Holds(s.attempts[a], PermitState.Reserved) ==> Doubted(s, UncertainOne(m, b), a)
  {}

  lemma {:induction false} UncertainRest(s: State, n: nat)
    requires n <= |s.attempts|
    ensures var r := UncertainInflight(s, n);
      && (forall j :: 0 <= j < |s.jobs| ==> s.jobs[j].epoch <= r.jobs[j].epoch)
      && (forall a :: n <= a < |s.attempts| ==> r.attempts[a] == s.attempts[a])
  {
    if n > 0 { UncertainRest(s, n - 1); }
  }

  lemma {:induction false} UncertainOneDoubts(s: State, m: State, a: nat)
    requires Kept(s) && Quiet(s, m) && a < |m.attempts| && m.attempts[a] == s.attempts[a]
    requires forall j :: 0 <= j < |s.jobs| ==> s.jobs[j].epoch <= m.jobs[j].epoch
    ensures !Holds(UncertainOne(m, a).attempts[a], PermitState.Reserved)
    ensures Holds(s.attempts[a], PermitState.Reserved) ==> Doubted(s, UncertainOne(m, a), a)
  {}

  lemma {:induction false} FinishQuiet(s: State, l: Lease, now: nat, memo: set<Lease>, status: JobStatus)
    requires Kept(s) && Issued(s, l)
    ensures Quiet(s, Commit(s, Queue.Finish(s, l, now, memo, status)))
  {
    if Holds(s.attempts[l.attempt], PermitState.Reserved) { assert FlightKept(s, l.attempt); }
    AttemptEditQuiet(s, Commit(s, Queue.Finish(s, l, now, memo, status)), l.task, l.attempt);
  }

  lemma {:induction false} MarkUnknownQuiet(s: State, a: nat)
    requires Kept(s) && a < |s.attempts|
    ensures Quiet(s, Commit(s, MarkUnknown(s, a)))
  {
    AttemptEditQuiet(s, Commit(s, MarkUnknown(s, a)), s.attempts[a].task, a);
  }

  lemma {:induction false} ReleaseQuiet(s: State, a: nat)
    requires Kept(s) && a < |s.attempts|
    ensures Quiet(s, Commit(s, ReleaseUnsent(s, a)))
  {
    AttemptEditQuiet(s, Commit(s, ReleaseUnsent(s, a)), s.attempts[a].task, a);
  }

  lemma {:induction false} SettleQuiet(s: State, a: nat, usage: Option<Price.Usage>, request: Option<string>)
    requires Kept(s) && a < |s.attempts|
    ensures Quiet(s, Commit(s, Settle(s, a, usage, request)))
  {
    AttemptEditQuiet(s, Commit(s, Settle(s, a, usage, request)), s.attempts[a].task, a);
  }

  lemma {:induction false} ResolveQuiet(s: State, a: nat, decision: Decision, budget: Option<int>, risk: bool)
    requires Kept(s) && a < |s.attempts|
    ensures Quiet(s, Commit(s, ResolveAttempt(s, a, decision, budget, risk)))
  {
    var t := s.attempts[a].task;
    forall b | 0 <= b < |s.attempts| && Holds(s.attempts[b], PermitState.Reserved) && s.attempts[b].task == t
      ensures !s.tasks[t].status.OutcomeUnknown?
    {
      assert FlightKept(s, b);
    }
    TaskEditQuiet(s, Commit(s, ResolveAttempt(s, a, decision, budget, risk)), t);
  }

  /** The failure branch hands out nothing unless it refunds an unspent attempt. */
  lemma {:induction false} FailQuiet(s: State, l: Lease, code: string)
    requires Kept(s) && Issued(s, l)
    requires s.attempts[l.attempt].permit.Some? || code != "CONTROL_CHANGED"
    ensures Quiet(s, FailExecution(s, l, code))
  {
    if s.tasks[l.task].fence == l.fence {
      OnlyCurrentInFlight(s, l.task, l.attempt);
    }
    AttemptEditQuiet(s, FailExecution(s, l, code), l.task, l.attempt);
  }

  lemma {:induction false} RetryTaskRow(task: TaskRow, outcome: Outcome, code: string, now: nat, delay: nat,
      repaired: Option<string>)
    ensures var row := RetryTask(task, outcome, code, now, delay, repaired); SameTask(task, row) && !row.status.Leased?
  {}

  /** After the money is classified the attempt is no longer in flight. */
  lemma {:induction false} Classified(s: State, a: nat, outcome: Outcome)
    requires a < |s.attempts|
    ensures var r := Classify(s, a, EffectiveOutcome(s, a, outcome));
      r.Success? ==>
        && r.value == s.(attempts := r.value.attempts) && |r.value.attempts| == |s.attempts|
        && r.value.attempts == s.attempts[a := r.value.attempts[a]]
        && SameAttempt(s.attempts[a], r.value.attempts[a]) && !Holds(r.value.attempts[a], PermitState.Reserved)
  {}

  lemma {:induction false} RetryEdits(s: State, l: Lease, outcome: Outcome, code: string, now: nat, delay: nat,
      repaired: Option<string>, finalized: Summary)
    requires Issued(s, l)
    ensures var r := Commit(s, RetryOrStop(s, l, outcome, code, now, delay, repaired, finalized));
      && Edits(s, r, l.task, l.attempt)
      && (r.tasks[l.task].status == s.tasks[l.task].status || s.attempts[l.attempt].fence == s.tasks[l.task].fence)
  {
    var effective := EffectiveOutcome(s, l.attempt, outcome);
    Classified(s, l.attempt, outcome);
    RetryTaskRow(s.tasks[l.task], effective, code, now, delay, repaired);
  }

  lemma {:induction false} RetryQuiet(s: State, l: Lease, outcome: Outcome, code: string, now: nat, delay: nat,
      repaired: Option<string>, finalized: Summary)
    requires Kept(s) && Issued(s, l)
    ensures Quiet(s, Commit(s, RetryOrStop(s, l, outcome, code, now, delay, repaired, finalized)))
  {
    RetryEdits(s, l, outcome, code, now, delay, repaired, finalized);
    CurrentEditQuiet(s, Commit(s, RetryOrStop(s, l, outcome, code, now, delay, repaired, finalized)), l.task,
      l.attempt);
  }

  lemma {:induction false} OnePermitMore(p: seq<AttemptRow>, a: nat, row: AttemptRow, t: nat)
    requires a < |p| && p[a].permit.None? && row.permit.Some? && row.task == p[a].task
    ensures PermitsIssued(p[a := row], t) == PermitsIssued(p, t) + if row.task == t then 1 else 0
  {
    var last := |p| - 1;
    if a == last {
      assert p[a := row][..last] == p[..last];
    } else {
      OnePermitMore(p[..last], a, row, t);
      assert p[a := row][..last] == p[..last][a := row];
    }
  }

  /** No attempt but the given one differs, and of the tasks only `t` does. */
  ghost predicate Disturbs(s: State, r: State, t: nat, a: nat) {
    && |r.tasks| == |s.tasks| && |s.attempts| <= |r.attempts|
    && (forall u :: 0 <= u < |s.tasks| && u != t ==> r.tasks[u] == s.tasks[u])
    && (forall b :: 0 <= b < |s.attempts| && b != a ==> r.attempts[b] == s.attempts[b])
  }

  /** A claim opens a new fence whose attempt has no permit yet and room for exactly one:
      permits and this allowance together stay within the counted attempts. */
  lemma {:induction false} ClaimKeeps(s: State, scene: Scene, seconds: nat)
    requires Kept(s) && Claim(s, scene, seconds).Some?
    ensures var (r, l) := Claim(s, scene, seconds).value;
      && Kept(r) && (Safe(s) ==> Safe(r)) && Disturbs(s, r, l.task, |s.attempts|) && |r.attempts| == |s.attempts| + 1
      && l.attempt == |s.attempts| && l.task < |s.tasks|
      && l.fence == r.tasks[l.task].fence == s.tasks[l.task].fence + 1
      && Unspent(r, l.task) && PermitsIssued(r.attempts, l.task) + 1 <= r.tasks[l.task].attempts
      && forall a :: 0 <= a < |r.attempts| && r.attempts[a].task == l.task ==>
        !Holds(r.attempts[a], PermitState.Reserved)
  {
    var (r, l) := Claim(s, scene, seconds).value;
    assert r.attempts[..|s.attempts|] == s.attempts;
    assert s.tasks[l.task].status.Pending? && r == Claimed(s, l.job, l.task, scene.now, seconds);
    ClaimedKeeps(s, l.job, l.task, scene.now, seconds);
    ClaimedIsUnspent(s, l.job, l.task, scene.now, seconds);
    assert AllowanceCovers(r, l.task);
    CancelsNoneSafe(s, r);
  }

  lemma {:induction false} ClaimedIsUnspent(s: State, j: nat, t: nat, now: nat, seconds: nat)
    requires Kept(s) && t < |s.tasks| && s.tasks[t].job == j
    ensures Unspent(Claimed(s, j, t, now, seconds), t)
  {
    var r := Claimed(s, j, t, now, seconds);
    forall a | 0 <= a < |s.attempts| && s.attempts[a].task == t ensures r.attempts[a].fence != r.tasks[t].fence {
      assert r.attempts[a] == s.attempts[a];
    }
  }

  lemma {:induction false} ClaimedKeeps(s: State, j: nat, t: nat, now: nat, seconds: nat)
    requires Kept(s) && t < |s.tasks| && s.tasks[t].job == j && s.tasks[t].status.Pending?
    ensures Kept(Claimed(s, j, t, now, seconds))
  {
    var r := Claimed(s, j, t, now, seconds);
    assert r.attempts[..|s.attempts|] == s.attempts;
    forall u | 0 <= u < |r.tasks| ensures AllowanceCovers(r, u) {
      assert AllowanceCovers(s, u);
      assert PermitsIssued(r.attempts, u) == PermitsIssued(s.attempts, u);
      if u != t && Unspent(r, u) {
        forall a | 0 <= a < |s.attempts| && s.attempts[a].task == u && s.attempts[a].fence == s.tasks[u].fence
          ensures s.attempts[a].permit.None?
        {
          assert r.attempts[a] == s.attempts[a];
        }
        assert Unspent(s, u);
      }
    }
    forall a | 0 <= a < |r.attempts| && Holds(r.attempts[a], PermitState.Reserved) ensures FlightKept(r, a) {
      assert r.attempts[a] == s.attempts[a] && FlightKept(s, a);
    }
  }

  lemma {:induction false} PermitGivenKeeps(s: State, a: nat, row: AttemptRow)
    requires Kept(s) && a < |s.attempts| && s.attempts[a].permit.None?
    requires s.tasks[s.attempts[a].task].status.Leased? && s.attempts[a].fence == s.tasks[s.attempts[a].task].fence
    requires row.permit.Some? && row.state.Dispatching?
    requires row == s.attempts[a].(state := row.state, permit := row.permit)
    ensures Kept(PutAttempt(s, a, row)) && Unspent(s, row.task)
  {
    var r := PutAttempt(s, a, row);
    var t := row.task;
    assert Unspent(s, t) by {
      forall b | 0 <= b < |s.attempts| && s.attempts[b].task == t && s.attempts[b].fence == s.tasks[t].fence
        ensures b == a
      {}
    }
    forall u | 0 <= u < |r.tasks| ensures AllowanceCovers(r, u) {
      assert AllowanceCovers(s, u);
      OnePermitMore(s.attempts, a, row, u);
      if u == t {
        assert r.attempts[a].permit.Some?;
      } else if Unspent(r, u) {
        forall b | 0 <= b < |s.attempts| && s.attempts[b].task == u ensures r.attempts[b] == s.attempts[b] {}
        assert Unspent(s, u);
      }
    }
    forall b | 0 <= b < |r.attempts| && Holds(r.attempts[b], PermitState.Reserved) ensures FlightKept(r, b) {
      if b != a { assert r.attempts[b] == s.attempts[b] && FlightKept(s, b); }
    }
  }

  /** What the permit of attempt `a` means in `r`. */
  ghost predicate GivesPermit(s: State, r: State, a: nat)
    requires Linked(s) && a < |s.attempts|
  {
    var t := s.attempts[a].task;
    && Kept(r) && CancelsNone(s, r) && Disturbs(s, r, |s.tasks|, a) && |r.attempts| == |s.attempts|
    && Unspent(s, t) && !Unspent(r, t) && PermitsIssued(r.attempts, t) == PermitsIssued(s.attempts, t) + 1
    && Holds(r.attempts[a], PermitState.Reserved) && OnlyFlightOf(r, t, a)
  }

  lemma {:induction false} PermitGiven(s: State, a: nat, row: AttemptRow)
    requires Kept(s) && a < |s.attempts| && s.attempts[a].permit.None?
    requires s.tasks[s.attempts[a].task].status.Leased? && s.attempts[a].fence == s.tasks[s.attempts[a].task].fence
    requires Holds(row, PermitState.Reserved) && row.state.Dispatching?
    requires row == s.attempts[a].(state := row.state, permit := row.permit)
    ensures GivesPermit(s, PutAttempt(s, a, row), a)
  {
    var r := PutAttempt(s, a, row);
    PermitGivenKeeps(s, a, row);
    OnlyCurrentInFlight(r, row.task, a);
    OnePermitMore(s.attempts, a, row, row.task);
    assert r.attempts[a].permit.Some?;
    forall b | 0 <= b < |r.attempts| && Stranded(r, b) ensures Stranded(s, b) {}
  }

  lemma {:induction false} SpentIsRefused(r: State, l: Lease, now: nat, memo: set<Lease>, amount: Option<int>,
      price: Option<Price.PriceSnapshot>, current: bool)
    requires Issued(r, l) && r.attempts[l.attempt].permit.Some?
    ensures AuthorizeError(r, l, now, memo, amount, price, current) != ""
  {}

  /** The authorized attempt becomes the only request in flight of its task and uses up the
      allowance of its lease, which can never be authorized again. */
  lemma {:induction false} AuthorizeKeeps(s: State, l: Lease, now: nat, memo: set<Lease>, amount: Option<int>,
      price: Option<Price.PriceSnapshot>, current: bool)
    requires Kept(s) && Issued(s, l) && Authorize(s, l, now, memo, amount, price, current).Success?
    ensures var r := Authorize(s, l, now, memo, amount, price, current).value;
      && GivesPermit(s, r, l.attempt) && (Safe(s) ==> Safe(r)) && Issued(r, l)
      && forall now', memo', amount', price', current' ::
           AuthorizeError(r, l, now', memo', amount', price', current') != ""
  {
    var r := Authorize(s, l, now, memo, amount, price, current).value;
    PermitGiven(s, l.attempt, r.attempts[l.attempt]);
    CancelsNoneSafe(s, r);
    forall now', memo', amount', price', current'
      ensures AuthorizeError(r, l, now', memo', amount', price', current') != ""
    {
      SpentIsRefused(r, l, now', memo', amount', price', current');
    }
  }

  /** `r` is `s` after a live lease was given back and its attempt refunded. */
  ghost predicate Refunds(s: State, r: State, l: Lease)
    requires Issued(s, l)
  {
    && |r.jobs| == |s.jobs| && |r.tasks| == |s.tasks| && |r.attempts| == |s.attempts|
    && r.tasks == s.tasks[l.task := r.tasks[l.task]] && r.attempts == s.attempts[l.attempt := r.attempts[l.attempt]]
    && r.tasks[l.task].job == s.tasks[l.task].job && r.tasks[l.task].fence == s.tasks[l.task].fence == l.fence
    && s.tasks[l.task].status.Leased? && r.tasks[l.task].status.Pending?
    && r.tasks[l.task].attempts == (if s.tasks[l.task].attempts == 0 then 0 else s.tasks[l.task].attempts - 1)
    && r.attempts[l.attempt] == s.attempts[l.attempt].(state := AttemptState.NotExecuted)
  }

  /** A refund is covered when the attempt has no permit, or when another one went without. */
  ghost predicate RefundCovered(s: State, l: Lease)
    requires Issued(s, l)
  {
    var a := s.attempts[l.attempt];
    a.permit.None? || (!Holds(a, PermitState.Reserved) && PermitsIssued(s.attempts, l.task) < s.tasks[l.task].attempts)
  }

  lemma {:induction false} IssuedAtLeastOne(p: seq<AttemptRow>, a: nat)
    requires a < |p| && p[a].permit.Some?
    ensures PermitsIssued(p, p[a].task) >= 1
  {
    if a < |p| - 1 { IssuedAtLeastOne(p[..|p| - 1], a); }
  }

  lemma {:induction false} RefundKeeps(s: State, r: State, l: Lease)
    requires Kept(s) && Issued(s, l) && Refunds(s, r, l)
    ensures Kept(r) <==> RefundCovered(s, l)
  {
    var a, t := l.attempt, l.task;
    forall u: nat ensures PermitsIssued(r.attempts, u) == PermitsIssued(s.attempts, u) {
      SamePermitsIssued(s.attempts, r.attempts, u);
    }
    OnlyCurrentInFlight(s, t, a);
    if Holds(s.attempts[a], PermitState.Reserved) {
      assert !FlightKept(r, a);
    } else if RefundCovered(s, l) {
      assert AllowanceCovers(s, t);
      if s.attempts[a].permit.None? {
        assert Unspent(s, t) by {
          forall b | 0 <= b < |s.attempts| && s.attempts[b].task == t && s.attempts[b].fence == s.tasks[t].fence
            ensures b == a
          {}
        }
      }
      forall u | 0 <= u < |r.tasks| && u != t ensures AllowanceCovers(r, u) {
        assert AllowanceCovers(s, u);
        if Unspent(r, u) {
          forall b | 0 <= b < |s.attempts| && s.attempts[b].task == u ensures r.attempts[b] == s.attempts[b] {}
          assert Unspent(s, u);
        }
      }
      forall b | 0 <= b < |r.attempts| && Holds(r.attempts[b], PermitState.Reserved) ensures FlightKept(r, b) {
        assert r.attempts[b] == s.attempts[b] && FlightKept(s, b);
      }
    } else {
      IssuedAtLeastOne(s.attempts, a);
      assert AllowanceCovers(s, t);
      assert !AllowanceCovers(r, t);
    }
  }

  /** The two transactions that trust their caller. `wait_without_dispatch` refunds without looking
      at the permit; a stopped connection test leaves an invalid answer's permit reserved. */
  ghost predicate InPlace(s: State, step: Step) {
    match step
    case Wait(l, now, memo, _) =>
      Issued(s, l) && CurrentError(s, l, now, memo, RUNNING) == "" ==> RefundCovered(s, l)
    case StopConnectionTest(l, now, memo, _, result) =>
      (Issued(s, l) && (result.None? || result.value.ExecutedInvalid?) && CurrentError(s, l, now, memo, RUNNING) ==
        "") ==>
        !Holds(s.attempts[l.attempt], PermitState.Reserved)
    case _ => true
  }

  /** A request in flight of another unfinished task of the document the lease cleans up. */
  ghost predicate Interrupts(s: State, l: Lease, a: nat)
    requires Issued(s, l) && a < |s.attempts|
  {
    && Holds(s.attempts[a], PermitState.Reserved) && s.attempts[a].task < |s.tasks| && s.attempts[a].task != l.task
    && var task := s.tasks[s.attempts[a].task];
       task.job < |s.jobs| && s.jobs[task.job].document == s.jobs[l.job].document && !task.status.Succeeded?
         && !task.status.Failed?
  }

  ghost predicate CleansUp(s: State, l: Lease, now: nat)
    requires Issued(s, l)
  {
    CurrentError(s, l, now, {}, RUNNING) == "" && Tombstoned(s, s.jobs[l.job])
  }

  /** Cleanup waits for no request: it is the one transaction that leaves a request in flight on a
      cancelled task, whoever calls it. */
  ghost predicate Undisturbed(s: State, step: Step) {
    step.Cleanup? && Issued(s, step.lease) && CleansUp(s, step.lease, step.now) ==>
      forall a :: 0 <= a < |s.attempts| ==> !Interrupts(s, step.lease, a)
  }

  ghost predicate Sound(s: State, step: Step) {
    InPlace(s, step) && Undisturbed(s, step)
  }

  lemma {:induction false} WaitKeeps(s: State, l: Lease, now: nat, memo: set<Lease>, code: string)
    requires Kept(s) && Issued(s, l)
    ensures Kept(Commit(s, WaitWithoutDispatch(s, l, now, memo, code))) <==>
      (CurrentError(s, l, now, memo, RUNNING) == "" ==> RefundCovered(s, l))
  {
    if CurrentError(s, l, now, memo, RUNNING) == "" {
      RefundKeeps(s, Commit(s, WaitWithoutDispatch(s, l, now, memo, code)), l);
    }
  }

  lemma {:induction false} FailKeeps(s: State, l: Lease, code: string)
    requires Kept(s) && Issued(s, l)
    ensures Kept(FailExecution(s, l, code))
  {
    var r := FailExecution(s, l, code);
    if s.attempts[l.attempt].permit.Some? || code != "CONTROL_CHANGED" {
      FailQuiet(s, l, code);
      QuietKeeps(s, r);
    } else if r != s && YieldsTo(s.jobs[l.job].status) {
      RefundKeeps(s, r, l);
    } else if r != s {
      CurrentEditQuiet(s, r, l.task, l.attempt);
      QuietKeeps(s, r);
    }
  }

  lemma {:induction false} SoundStopTestKeeps(s: State, l: Lease, now: nat, memo: set<Lease>, code: string,
      result: Option<Outcome>)
    requires Kept(s) && Issued(s, l) && InPlace(s, StopConnectionTest(l, now, memo, code, result))
    ensures Kept(Commit(s, StopTest(s, l, now, memo, code, result)))
  {
    SoundStopTestQuiet(s, l, now, memo, code, result);
    QuietKeeps(s, Commit(s, StopTest(s, l, now, memo, code, result)));
  }

  lemma {:induction false} UnclassifiedStopQuiet(s: State, l: Lease, now: nat, memo: set<Lease>, code: string,
      result: Option<Outcome>)
    requires Kept(s) && Issued(s, l) && (result.None? || result.value.ExecutedInvalid?)
    requires InPlace(s, StopConnectionTest(l, now, memo, code, result))
    ensures Quiet(s, Commit(s, StopTest(s, l, now, memo, code, result)))
  {
    if Holds(s.attempts[l.attempt], PermitState.Reserved) { assert FlightKept(s, l.attempt); }
    CurrentEditQuiet(s, Commit(s, StopTest(s, l, now, memo, code, result)), l.task, l.attempt);
  }

  lemma {:induction false} UnknownStopQuiet(s: State, l: Lease, now: nat, memo: set<Lease>, code: string)
    requires Kept(s) && Issued(s, l)
    ensures Quiet(s, Commit(s, StopTest(s, l, now, memo, code, Some(Outcome.Unknown))))
  {
    if Holds(s.attempts[l.attempt], PermitState.Reserved) { assert FlightKept(s, l.attempt); }
    CurrentEditQuiet(s, Commit(s, StopTest(s, l, now, memo, code, Some(Outcome.Unknown))), l.task, l.attempt);
  }

  lemma {:induction false} UnsentStopQuiet(s: State, l: Lease, now: nat, memo: set<Lease>, code: string,
      result: Outcome)
    requires Kept(s) && Issued(s, l) && !result.ExecutedInvalid? && !result.Unknown?
    ensures Quiet(s, Commit(s, StopTest(s, l, now, memo, code, Some(result))))
  {
    if Holds(s.attempts[l.attempt], PermitState.Reserved) { assert FlightKept(s, l.attempt); }
    CurrentEditQuiet(s, Commit(s, StopTest(s, l, now, memo, code, Some(result))), l.task, l.attempt);
  }

  lemma {:induction false} SoundStopTestQuiet(s: State, l: Lease, now: nat, memo: set<Lease>, code: string,
      result: Option<Outcome>)
    requires Kept(s) && Issued(s, l) && InPlace(s, StopConnectionTest(l, now, memo, code, result))
    ensures Quiet(s, Commit(s, StopTest(s, l, now, memo, code, result)))
  {
    if result.None? || result.value.ExecutedInvalid? { UnclassifiedStopQuiet(s, l, now, memo, code, result); }
    else if result.value.Unknown? { UnknownStopQuiet(s, l, now, memo, code); }
    else { UnsentStopQuiet(s, l, now, memo, code, result.value); }
  }

  lemma {:induction false} UnsoundStopTestBreaks(s: State, l: Lease, now: nat, memo: set<Lease>, code: string,
      result: Option<Outcome>)
    requires Kept(s) && Issued(s, l) && !InPlace(s, StopConnectionTest(l, now, memo, code, result))
    ensures !Kept(Commit(s, StopTest(s, l, now, memo, code, result)))
  {
    assert !FlightKept(Commit(s, StopTest(s, l, now, memo, code, result)), l.attempt);
  }

  lemma {:induction false} StopTestKeeps(s: State, l: Lease, now: nat, memo: set<Lease>, code: string,
      result: Option<Outcome>)
    requires Kept(s) && Issued(s, l)
    ensures Kept(Commit(s, StopTest(s, l, now, memo, code, result))) <==>
      InPlace(s, StopConnectionTest(l, now, memo, code, result))
  {
    if InPlace(s, StopConnectionTest(l, now, memo, code, result)) {
      SoundStopTestKeeps(s, l, now, memo, code, result);
    } else {
      UnsoundStopTestBreaks(s, l, now, memo, code, result);
    }
  }

  lemma {:induction false} NewTaskKeeps(s: State, task: TaskRow)
    requires Kept(s) && task.job < |s.jobs|
    ensures Kept(NewTask(s, task))
  {
    var r := NewTask(s, task);
    forall t | 0 <= t < |s.tasks|
      ensures r.tasks[t] == s.tasks[t] && Unspent(r, t) == Unspent(s, t) && AllowanceCovers(s, t)
    {}
    NoPermitsYet(s.attempts, |s.tasks|);
    forall a | 0 <= a < |s.attempts| && Holds(s.attempts[a], PermitState.Reserved) ensures FlightKept(r, a) {
      assert FlightKept(s, a);
    }
  }

  lemma {:induction false} MoreJobsKeep(s: State, jobs: seq<JobRow>, deleted: set<nat>)
    requires Kept(s) && |s.jobs| <= |jobs|
    ensures Kept(s.(jobs := jobs, deleted := deleted))
  {
    var e := s.(jobs := jobs, deleted := deleted);
    forall t | 0 <= t < |s.tasks| ensures AllowanceCovers(e, t) {
      assert AllowanceCovers(s, t) && Unspent(e, t) == Unspent(s, t);
    }
    forall a | 0 <= a < |s.attempts| && Holds(s.attempts[a], PermitState.Reserved) ensures FlightKept(e, a) {
      assert FlightKept(s, a);
    }
  }

  lemma {:induction false} EnqueueKeeps(s: State, job: JobRow)
    requires Kept(s)
    ensures Kept(Apply(s, Enqueue(job)))
  {
    MoreJobsKeep(s, Apply(s, Enqueue(job)).jobs, s.deleted);
  }

  lemma {:induction false} DeleteKeeps(s: State, d: nat, now: nat)
    requires Kept(s)
    ensures Kept(Commit(s, Deletion.DeleteDocument(s, d, now)))
  {
    var m := s.(jobs := Tombstone(s, d).jobs + [CleanupJob(d, now)], deleted := s.deleted + {d});
    MoreJobsKeep(s, m.jobs, m.deleted);
    NewTaskKeeps(m, CleanupTask(|s.jobs|, now));
  }

  /** Erasing rewrites statuses of tasks, and only to cancelled. */
  lemma {:induction false} ErasedTask(s: State, t: nat, d: nat, keep: nat)
    requires t < |s.tasks|
    ensures var row := EraseTask(s, t, d, keep);
      SameTask(s.tasks[t], row) && (row.status == s.tasks[t].status || row.status.Cancelled?)
  {}

  lemma {:induction false} EraseKeeps(s: State, d: nat, keep: nat)
    requires Kept(s)
    ensures Kept(Erase(s, d, keep))
  {
    var r := Erase(s, d, keep);
    forall t | 0 <= t < |s.tasks| ensures SameTask(s.tasks[t], r.tasks[t]) { ErasedTask(s, t, d, keep); }
    forall t | 0 <= t < |r.tasks| ensures AllowanceCovers(r, t) {
      assert SameTask(s.tasks[t], r.tasks[t]) && AllowanceCovers(s, t);
      if Unspent(r, t) { assert Unspent(s, t); }
    }
    forall a | 0 <= a < |r.attempts| && Holds(r.attempts[a], PermitState.Reserved) ensures FlightKept(r, a) {
      ErasedTask(s, s.attempts[a].task, d, keep);
      assert FlightKept(s, a);
    }
  }

  lemma {:induction false} CleanupKeeps(s: State, l: Lease, now: nat)
    requires Kept(s) && Issued(s, l)
    ensures Kept(Commit(s, CleanupDocument(s, l, now)))
  {
    if CleansUp(s, l, now) {
      var m := Erase(s, s.jobs[l.job].document.value, l.task);
      EraseKeeps(s, s.jobs[l.job].document.value, l.task);
      FinishQuiet(m, l, now, {l}, JobStatus.Ended("succeeded"));
      QuietKeeps(m, Commit(m, Queue.Finish(m, l, now, {l}, JobStatus.Ended("succeeded"))));
    }
  }

  lemma {:induction false} NoPermitsYet(p: seq<AttemptRow>, t: nat)
    requires forall a :: 0 <= a < |p| ==> p[a].task < t
    ensures PermitsIssued(p, t) == 0
  {
    if p != [] { NoPermitsYet(p[..|p| - 1], t); }
  }

  lemma {:induction false} RenewQuiet(s: State, l: Lease, now: nat, seconds: nat)
    requires Kept(s) && Issued(s, l)
    ensures Quiet(s, Queue.Renew(s, l, now, seconds))
  {
    TaskEditQuiet(s, Queue.Renew(s, l, now, seconds), l.task);
  }

  lemma {:induction false} CheckpointQuiet(s: State, a: nat, work: string)
    requires Kept(s) && a < |s.attempts|
    ensures Quiet(s, RecordCheckpoint(s, a, work))
  {
    AttemptEditQuiet(s, RecordCheckpoint(s, a, work), s.attempts[a].task, a);
  }

  lemma {:induction false} SettingsQuiet(s: State, settings: SettingsRow)
    ensures Quiet(s, s.(settings := settings))
  {}

  lemma {:induction false} CommandQuiet(s: State, j: nat, action: Action)
    requires j < |s.jobs|
    ensures Quiet(s, Commit(s, ControlJob(s, j, action)))
  {
    var r := Commit(s, ControlJob(s, j, action));
    assert r.tasks == s.tasks && r.attempts == s.attempts && |r.jobs| == |s.jobs|;
  }

  lemma {:induction false} MaintenanceQuiet(s: State, enabled: bool, disabled: bool)
    requires Kept(s)
    ensures Quiet(s, SetMaintenance(s, enabled, disabled))
  {
    var s1 := s.(settings := s.settings.(maintenance := enabled, dispatchDisabled := disabled));
    SettingsQuiet(s, s1.settings);
    if enabled {
      QuietKeeps(s, s1);
      UncertainInflightQuiet(s1, |s1.attempts|);
      QuietTrans(s, s1, SetMaintenance(s, enabled, disabled));
    }
  }

  /** The steps that hand out nothing. */
  lemma {:induction false} QuietLeaseSteps(s: State, step: Step)
    requires Kept(s) && (step.RenewLease? || step.FinishTask? || step.Recover? || step.Retry?)
    ensures Quiet(s, Apply(s, step))
  {
    QuietSame(s);
    match step
    case RenewLease(l, now, seconds) => if Issued(s, l) { RenewQuiet(s, l, now, seconds); }
    case FinishTask(l, now, memo, status) => if Issued(s, l) { FinishQuiet(s, l, now, memo, status); }
    case Recover(now, order) => RecoverAllQuiet(s, now, order);
    case Retry(l, outcome, code, now, delay, repaired, finalized) =>
      if Issued(s, l) { RetryQuiet(s, l, outcome, code, now, delay, repaired, finalized); }
  }

  lemma {:induction false} QuietPermitSteps(s: State, step: Step)
    requires Kept(s) && (step.MarkUncertain? || step.Release? || step.SettlePermit? || step.Checkpoint?)
    ensures Quiet(s, Apply(s, step))
  {
    QuietSame(s);
    match step
    case MarkUncertain(a) => if a < |s.attempts| { MarkUnknownQuiet(s, a); }
    case Release(a) => if a < |s.attempts| { ReleaseQuiet(s, a); }
    case SettlePermit(a, usage, request) => if a < |s.attempts| { SettleQuiet(s, a, usage, request); }
    case Checkpoint(a, work) => if a < |s.attempts| { CheckpointQuiet(s, a, work); }
  }

  lemma {:induction false} DocumentStepsQuiet(s: State, step: Step)
    requires step.ReplaceSource? || step.ContinueDraft?
    ensures Quiet(s, Apply(s, step))
  {
    QuietSame(s);
    var r := Apply(s, step);
    assert r.tasks == s.tasks && r.attempts == s.attempts && |r.jobs| == |s.jobs|;
  }

  ghost predicate HandsOut(step: Step) {
    || step.Enqueue? || step.AddTask? || step.ClaimTask? || step.AuthorizeDispatch? || step.Wait? || step.FailTask?
    || step.StopConnectionTest? || step.DeleteDocument? || step.Cleanup?
  }

  lemma {:induction false} QuietSteps(s: State, step: Step)
    requires Kept(s) && !HandsOut(step)
    ensures Quiet(s, Apply(s, step))
  {
    if step.RenewLease? || step.FinishTask? || step.Recover? || step.Retry? {
      QuietLeaseSteps(s, step);
    } else if step.MarkUncertain? || step.Release? || step.SettlePermit? || step.Checkpoint? {
      QuietPermitSteps(s, step);
    } else if step.ReplaceSource? || step.ContinueDraft? {
      DocumentStepsQuiet(s, step);
    } else {
      QuietSame(s);
      match step
      case Command(j, action) => if j < |s.jobs| { CommandQuiet(s, j, action); }
      case Resolve(a, decision, budget, risk) => if a < |s.attempts| { ResolveQuiet(s, a, decision, budget, risk); }
      case Maintenance(enabled, disabled) => MaintenanceQuiet(s, enabled, disabled);
      case Dispatch(disabled, risk) => SettingsQuiet(s, Apply(s, step).settings);
    }
  }

  lemma {:induction false} RowStepKeeps(s: State, step: Step)
    requires Kept(s) && (step.Enqueue? || step.AddTask? || step.ClaimTask? || step.DeleteDocument? || step.Cleanup?)
    ensures Kept(Apply(s, step))
  {
    match step
    case Enqueue(job) => EnqueueKeeps(s, job);
    case AddTask(task) => if task.job < |s.jobs| { NewTaskKeeps(s, task); }
    case ClaimTask(scene, seconds) => if Claim(s, scene, seconds).Some? { ClaimKeeps(s, scene, seconds); }
    case DeleteDocument(d, now) => DeleteKeeps(s, d, now);
    case Cleanup(l, now) => if Issued(s, l) { CleanupKeeps(s, l, now); }
  }

  lemma {:induction false} WorkStepKeeps(s: State, step: Step)
    requires Kept(s) && (step.AuthorizeDispatch? || step.FailTask? || step.Wait? || step.StopConnectionTest?)
    ensures Kept(Apply(s, step)) <==> InPlace(s, step)
  {
    match step
    case AuthorizeDispatch(l, now, memo, amount, price, current) =>
      if Issued(s, l) && Authorize(s, l, now, memo, amount, price, current).Success? {
        AuthorizeKeeps(s, l, now, memo, amount, price, current);
      }
    case FailTask(l, code) => if Issued(s, l) { FailKeeps(s, l, code); }
    case Wait(l, now, memo, code) => if Issued(s, l) { WaitKeeps(s, l, now, memo, code); }
    case StopConnectionTest(l, now, memo, code, result) =>
      if Issued(s, l) { StopTestKeeps(s, l, now, memo, code, result); }
  }

  /** Every transaction but the two that trust their caller keeps the invariant, cleanup included. */
  lemma {:induction false} StepKeepsKept(s: State, step: Step)
    requires Kept(s)
    ensures Kept(Apply(s, step)) <==> InPlace(s, step)
  {
    if step.Enqueue? || step.AddTask? || step.ClaimTask? || step.DeleteDocument? || step.Cleanup? {
      RowStepKeeps(s, step);
    } else if step.AuthorizeDispatch? || step.FailTask? || step.Wait? || step.StopConnectionTest? {
      WorkStepKeeps(s, step);
    } else {
      QuietSteps(s, step);
      QuietKeeps(s, Apply(s, step));
    }
  }

  lemma {:induction false} QuietCancelsNone(s: State, r: State)
    requires Kept(s) && Quiet(s, r)
    ensures CancelsNone(s, r)
  {
    forall a | 0 <= a < |r.attempts| && Stranded(r, a) ensures Stranded(s, a) {
      assert SameAttempt(s.attempts[a], r.attempts[a]);
    }
  }

  lemma {:induction false} FailCancelsNone(s: State, step: Step)
    requires Kept(s) && step.FailTask?
    ensures CancelsNone(s, Apply(s, step))
  {}

  lemma {:induction false} WaitCancelsNone(s: State, step: Step)
    requires Kept(s) && step.Wait?
    ensures CancelsNone(s, Apply(s, step))
  {}

  lemma {:induction false} StopTestCancelsNone(s: State, step: Step)
    requires Kept(s) && step.StopConnectionTest?
    ensures CancelsNone(s, Apply(s, step))
  {}

  lemma {:induction false} ClaimCancelsNone(s: State, scene: Scene, seconds: nat)
    requires Kept(s)
    ensures CancelsNone(s, Apply(s, ClaimTask(scene, seconds)))
  {}

  lemma {:induction false} AuthorizeCancelsNone(s: State, step: Step)
    requires Kept(s) && step.AuthorizeDispatch?
    ensures CancelsNone(s, Apply(s, step))
  {}

  lemma {:induction false} DeleteCancelsNone(s: State, step: Step)
    requires Kept(s) && (step.DeleteDocument? || step.Enqueue? || step.AddTask?)
    ensures CancelsNone(s, Apply(s, step))
  {}

  lemma {:induction false} CleanupCancels(s: State, l: Lease, now: nat)
    requires Safe(s) && Issued(s, l) && CleansUp(s, l, now)
    ensures (forall a :: 0 <= a < |s.attempts| ==> !Stranded(Apply(s, Cleanup(l, now)), a)) <==>
            (forall a :: 0 <= a < |s.attempts| ==> !Interrupts(s, l, a))
  {
    var d := s.jobs[l.job].document.value;
    var m, r := Erase(s, d, l.task), Apply(s, Cleanup(l, now));
    forall a | 0 <= a < |s.attempts| ensures Stranded(r, a) <==> Interrupts(s, l, a) {
      CleanupStrands(s, l, now, a);
    }
  }

  lemma {:induction false} CleanupStrands(s: State, l: Lease, now: nat, a: nat)
    requires Safe(s) && Issued(s, l) && CleansUp(s, l, now) && a < |s.attempts|
    ensures |Apply(s, Cleanup(l, now)).attempts| == |s.attempts|
    ensures Stranded(Apply(s, Cleanup(l, now)), a) <==> Interrupts(s, l, a)
  {
    var d := s.jobs[l.job].document.value;
    var r := Apply(s, Cleanup(l, now));
    assert Holds(r.attempts[a], PermitState.Reserved) <==> Holds(s.attempts[a], PermitState.Reserved);
    assert !Stranded(s, a);
    if Holds(s.attempts[a], PermitState.Reserved) {
      var t := s.attempts[a].task;
      assert FlightKept(s, a);
      assert r.tasks[t].status == if t == l.task then TaskStatus.Succeeded else EraseTask(s, t, d, l.task).status;
    }
  }

  /** Only cleanup cancels a task whose request is in flight. */
  lemma {:induction false} OthersCancelNone(s: State, step: Step)
    requires Kept(s) && !step.Cleanup?
    ensures CancelsNone(s, Apply(s, step))
  {
    if step.FailTask? { FailCancelsNone(s, step); }
    else if step.Wait? { WaitCancelsNone(s, step); }
    else if step.StopConnectionTest? { StopTestCancelsNone(s, step); }
    else if step.ClaimTask? { ClaimCancelsNone(s, step.scene, step.seconds); }
    else if step.AuthorizeDispatch? { AuthorizeCancelsNone(s, step); }
    else if step.DeleteDocument? || step.Enqueue? || step.AddTask? { DeleteCancelsNone(s, step); }
    else { QuietSteps(s, step); QuietCancelsNone(s, Apply(s, step)); }
  }

  /** One step keeps a safe state safe exactly when it is sound. */
  lemma {:induction false} StepKeepsSafe(s: State, step: Step)
    requires Safe(s)
    ensures Safe(Apply(s, step)) <==> Sound(s, step)
  {
    StepKeepsKept(s, step);
    if step.Cleanup? {
      if Issued(s, step.lease) && CleansUp(s, step.lease, step.now) { CleanupCancels(s, step.lease, step.now); }
    } else {
      OthersCancelNone(s, step);
    }
  }
}
