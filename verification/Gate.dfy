/** The reader/writer gate as interleaved critical sections (src/packages/local_models/service.py, `InferenceGate`). */
module Gate {
  import opened Wrappers

  /** What a thread does; a waiting thread sleeps after its test failed and until it is notified. */
  datatype Phase = Idle | WantWrite(asleep: bool) | Writing | WantRead(asleep: bool) | Reading

  datatype Lock = Lock(readers: int, writers: int, writing: bool)

  /** One critical section of one thread. */
  datatype Action = RequestWrite | TestWrite | AbandonWrite | EndWrite | RequestRead | TestRead | AbandonRead | EndRead

  datatype State = State(lock: Lock, threads: seq<Phase>)

  predicate MayWrite(l: Lock) { !l.writing && l.readers == 0 }

  predicate MayRead(l: Lock) { !l.writing && l.writers == 0 }

  /** What each critical section does to the counters. */
  function Announced(l: Lock): Lock { l.(writers := l.writers + 1) }
  function WriterIn(l: Lock): Lock { l.(writing := true, writers := l.writers - 1) }
  function GivenUp(l: Lock): Lock { l.(writers := l.writers - 1) }
  function WriterOut(l: Lock): Lock { l.(writing := false) }
  function ReaderIn(l: Lock): Lock { l.(readers := l.readers + 1) }
  function ReaderOut(l: Lock): Lock { l.(readers := l.readers - 1) }

  function Awake(p: Phase): Phase {
    match p case WantWrite(_) => WantWrite(false) case WantRead(_) => WantRead(false) case _ => p
  }

  /** `notify_all`. */
  function Wake(threads: seq<Phase>): (r: seq<Phase>)
    ensures |r| == |threads| && forall i :: 0 <= i < |r| ==> r[i] == Awake(threads[i])
  {
    seq(|threads|, i requires 0 <= i < |threads| => Awake(threads[i]))
  }

  predicate Enabled(s: State, t: nat, a: Action) {
    t < |s.threads| &&
      match a
      case RequestWrite => s.threads[t] == Idle
      case TestWrite => s.threads[t] == WantWrite(false)
      case AbandonWrite => s.threads[t].WantWrite?
      case EndWrite => s.threads[t] == Writing
      case RequestRead => s.threads[t] == Idle
      case TestRead => s.threads[t] == WantRead(false)
      case AbandonRead => s.threads[t].WantRead?
      case EndRead => s.threads[t] == Reading
  }

  /** `AbandonWrite` is an exception while waiting: the count goes down and nobody is notified.
      An interrupted reader has counted itself nowhere. */
  function Step(s: State, t: nat, a: Action): State
    requires Enabled(s, t, a)
  {
    var l, ts := s.lock, s.threads;
    match a
    case RequestWrite => State(Announced(l), ts[t := WantWrite(false)])
    case TestWrite => if MayWrite(l) then State(WriterIn(l), ts[t := Writing]) else State(l, ts[t := WantWrite(true)])
    case AbandonWrite => State(GivenUp(l), ts[t := Idle])
    case EndWrite => State(WriterOut(l), Wake(ts[t := Idle]))
    case RequestRead => State(l, ts[t := WantRead(false)])
    case TestRead => if MayRead(l) then State(ReaderIn(l), ts[t := Reading]) else State(l, ts[t := WantRead(true)])
    case AbandonRead => State(l, ts[t := Idle])
    case EndRead => State(ReaderOut(l), Wake(ts[t := Idle]))
  }

  datatype Role = Readers | QueuedWriters | ActiveWriters

  predicate Plays(p: Phase, r: Role) {
    match r case Readers => p.Reading? case QueuedWriters => p.WantWrite? case ActiveWriters => p.Writing?
  }

  function Count(threads: seq<Phase>, r: Role): nat {
    if threads == [] then 0
    else Count(threads[..|threads| - 1], r) + if Plays(threads[|threads| - 1], r) then 1 else 0
  }

  /** The counters count exactly the threads reading, waiting to write and writing, and a writer is alone. */
  ghost predicate Exact(s: State) {
    && s.lock.readers == Count(s.threads, Readers)
    && s.lock.writers == Count(s.threads, QueuedWriters)
    && (if s.lock.writing then 1 else 0) == Count(s.threads, ActiveWriters)
    && (s.lock.writing ==> s.lock.readers == 0)
  }

  lemma {:induction false} CountUpdate(threads: seq<Phase>, t: nat, p: Phase, r: Role)
    requires t < |threads|
    ensures Count(threads[t := p], r) + One(Plays(threads[t], r)) == Count(threads, r) + One(Plays(p, r))
  {
    var n := |threads| - 1;
    if t < n {
      assert threads[t := p][..n] == threads[..n][t := p];
      CountUpdate(threads[..n], t, p, r);
    } else {
      assert threads[t := p][..n] == threads[..n];
    }
  }

  lemma {:induction false} CountWake(threads: seq<Phase>, r: Role)
    ensures Count(Wake(threads), r) == Count(threads, r)
  {
    if threads != [] {
      var n := |threads| - 1;
      assert Wake(threads)[..n] == Wake(threads[..n]);
      CountWake(threads[..n], r);
    }
  }

  lemma {:induction false} CountPositive(threads: seq<Phase>, r: Role)
    ensures Count(threads, r) > 0 <==> exists i :: 0 <= i < |threads| && Plays(threads[i], r)
  {
    if threads != [] {
      var n := |threads| - 1;
      CountPositive(threads[..n], r);
      if i :| 0 <= i < n && Plays(threads[..n][i], r) { assert Plays(threads[i], r); }
      if i :| 0 <= i < |threads| && Plays(threads[i], r) {
        if i < n { assert Plays(threads[..n][i], r); }
      }
    }
  }

  lemma {:induction false} CountsAfter(threads: seq<Phase>, t: nat, p: Phase, r: Role)
    requires t < |threads|
    ensures Count(threads[t := p], r) + One(Plays(threads[t], r)) == Count(threads, r) + One(Plays(p, r))
    ensures Count(Wake(threads[t := p]), r) == Count(threads[t := p], r)
  {
    CountUpdate(threads, t, p, r);
    CountWake(threads[t := p], r);
  }

  /** Every critical section keeps the counters exact and a writer alone. */
  lemma {:induction false} StepKeepsExact(s: State, t: nat, a: Action)
    requires Exact(s) && Enabled(s, t, a)
    ensures Exact(Step(s, t, a))
  {
    var p := match a {
      case RequestWrite => WantWrite(false)
      case TestWrite => if MayWrite(s.lock) then Writing else WantWrite(true)
      case RequestRead => WantRead(false)
      case TestRead => if MayRead(s.lock) then Reading else WantRead(true)
      case _ => Idle
    };
    CountsAfter(s.threads, t, p, Readers);
    CountsAfter(s.threads, t, p, QueuedWriters);
    CountsAfter(s.threads, t, p, ActiveWriters);
  }

  /** A thread starts to read only while no writer waits or writes, and to write only alone. */
  lemma {:induction false} EntryIsFair(s: State, t: nat, a: Action, other: nat)
    requires Exact(s) && Enabled(s, t, a) && other < |s.threads|
    ensures Step(s, t, a).threads[t] == Reading ==> !s.threads[other].WantWrite? && !s.threads[other].Writing?
    ensures Step(s, t, a).threads[t] == Writing ==> !s.threads[other].Reading? && !s.threads[other].Writing?
  {
    CountPositive(s.threads, Readers);
    CountPositive(s.threads, QueuedWriters);
    CountPositive(s.threads, ActiveWriters);
    assert forall r :: Plays(s.threads[other], r) ==> Count(s.threads, r) > 0;
  }

  lemma {:induction false} PlayerCounts(threads: seq<Phase>, i: nat, r: Role)
    requires i < |threads|
    ensures Plays(threads[i], r) ==> Count(threads, r) > 0
  {
    CountPositive(threads, r);
  }

  lemma {:induction false} TwoPlayersCount(threads: seq<Phase>, i: nat, j: nat, r: Role)
    requires i < |threads| && j < |threads| && i != j
    ensures Plays(threads[i], r) && Plays(threads[j], r) ==> Count(threads, r) > 1
  {
    CountUpdate(threads, i, Idle, r);
    PlayerCounts(threads[i := Idle], j, r);
  }

  /** No two writers, and no reader beside a writer. */
  lemma {:induction false} WriterIsAlone(s: State, i: nat, j: nat)
    requires Exact(s) && i < |s.threads| && j < |s.threads| && i != j && s.threads[i] == Writing
    ensures s.threads[j] != Writing && s.threads[j] != Reading
  {
    PlayerCounts(s.threads, i, ActiveWriters);
    TwoPlayersCount(s.threads, i, j, ActiveWriters);
    PlayerCounts(s.threads, j, Readers);
  }

  /** A sleeping thread's test would still fail: no wake-up was lost. */
  ghost predicate NoLostWakeup(s: State) {
    && (forall i :: 0 <= i < |s.threads| && s.threads[i] == WantWrite(true) ==> !MayWrite(s.lock))
    && (forall i :: 0 <= i < |s.threads| && s.threads[i] == WantRead(true) ==> !MayRead(s.lock))
  }

  /** Reader `i` sleeps behind the last waiting writer while nobody writes. */
  ghost predicate Strands(s: State, t: nat, a: Action) {
    a == AbandonWrite && !s.lock.writing && s.lock.writers == 1 && exists i ::
      0 <= i < |s.threads| && s.threads[i] == WantRead(true)
  }

  /** A step loses a wake-up exactly when the last waiting writer gives up in front of sleeping readers. */
  lemma {:induction false} WakeupsAreKept(s: State, t: nat, a: Action)
    requires Exact(s) && NoLostWakeup(s) && Enabled(s, t, a)
    ensures NoLostWakeup(Step(s, t, a)) <==> !Strands(s, t, a)
  {
    StepKeepsExact(s, t, a);
    if Strands(s, t, a) {
      var i :| 0 <= i < |s.threads| && s.threads[i] == WantRead(true);
      assert Step(s, t, a).threads[i] == WantRead(true);
    }
  }

  /** The thread can leave, or would be admitted at its next test. */
  ghost predicate CanMoveOn(s: State, t: nat) {
    t < |s.threads| && (s.threads[t] == Writing || s.threads[t] == Reading
      || (s.threads[t] == WantWrite(false) && MayWrite(s.lock)) || (s.threads[t] == WantRead(false) && MayRead(s.lock)))
  }

  /** Whenever a thread waits and no wake-up was lost, some thread can leave or enter. */
  lemma {:induction false} SomeoneMovesOn(s: State, waiting: nat)
    requires Exact(s) && NoLostWakeup(s) && waiting < |s.threads|
    requires s.threads[waiting].WantWrite? || s.threads[waiting].WantRead?
    ensures exists t :: CanMoveOn(s, t)
  {
    CountPositive(s.threads, Readers);
    CountPositive(s.threads, QueuedWriters);
    CountPositive(s.threads, ActiveWriters);
    if s.lock.writing {
      var t :| 0 <= t < |s.threads| && Plays(s.threads[t], ActiveWriters);
      assert CanMoveOn(s, t);
    } else if s.lock.readers > 0 {
      var t :| 0 <= t < |s.threads| && Plays(s.threads[t], Readers);
      assert CanMoveOn(s, t);
    } else if s.lock.writers > 0 {
      var t :| 0 <= t < |s.threads| && Plays(s.threads[t], QueuedWriters);
      assert s.threads[t] != WantWrite(true);
      assert CanMoveOn(s, t);
    } else {
      PlayerCounts(s.threads, waiting, QueuedWriters);
      assert CanMoveOn(s, waiting);
    }
  }

  datatype Move = Move(thread: nat, action: Action)

  /** The run is possible: every critical section is enabled when it comes. */
  predicate Possible(s: State, moves: seq<Move>)
    decreases |moves|, 0
  {
    moves == [] || (Possible(s, moves[..|moves| - 1])
      && Enabled(Run(s, moves[..|moves| - 1]), moves[|moves| - 1].thread, moves[|moves| - 1].action))
  }

  function Run(s: State, moves: seq<Move>): State
    requires Possible(s, moves)
    decreases |moves|, 1
  {
    if moves == [] then s else Step(Run(s, moves[..|moves| - 1]), moves[|moves| - 1].thread, moves[|moves| - 1].action)
  }

  function Fresh(n: nat): State {
    State(Lock(0, 0, false), seq(n, _ => Idle))
  }

  lemma {:induction false} FreshCounts(n: nat, r: Role)
    ensures Count(Fresh(n).threads, r) == 0
  {
    if n > 0 {
      assert Fresh(n).threads[..n - 1] == Fresh(n - 1).threads;
      FreshCounts(n - 1, r);
    }
  }

  /** Whatever the interleaving, counters are exact; wake-ups are only lost to interrupted writers. */
  lemma {:induction false} ReachableIsExact(n: nat, moves: seq<Move>)
    requires Possible(Fresh(n), moves)
    ensures Exact(Run(Fresh(n), moves))
    ensures (forall i :: 0 <= i < |moves| ==> moves[i].action != AbandonWrite) ==> NoLostWakeup(Run(Fresh(n), moves))
  {
    if moves == [] {
      FreshCounts(n, Readers);
      FreshCounts(n, QueuedWriters);
      FreshCounts(n, ActiveWriters);
    } else {
      var k := |moves| - 1;
      ReachableIsExact(n, moves[..k]);
      var s := Run(Fresh(n), moves[..k]);
      StepKeepsExact(s, moves[k].thread, moves[k].action);
      if forall i :: 0 <= i < |moves| ==> moves[i].action != AbandonWrite {
        assert forall i :: 0 <= i < k ==> moves[..k][i].action == moves[i].action;
        WakeupsAreKept(s, moves[k].thread, moves[k].action);
      }
    }
  }

  ghost predicate Reachable(n: nat, s: State) {
    exists moves :: Possible(Fresh(n), moves) && Run(Fresh(n), moves) == s
  }

  lemma {:induction false} OneMove(n: nat, s: State, t: nat, a: Action)
    requires Reachable(n, s) && Enabled(s, t, a)
    ensures Reachable(n, Step(s, t, a))
  {
    var moves :| Possible(Fresh(n), moves) && Run(Fresh(n), moves) == s;
    var more := moves + [Move(t, a)];
    assert more[..|moves|] == moves;
    assert Possible(Fresh(n), more) && Run(Fresh(n), more) == Step(s, t, a);
  }

  lemma {:induction false} ReaderBeforeWriter()
    ensures Reachable(3, State(Lock(0, 1, false), [Idle, WantWrite(false), Idle]))
  {
    assert Possible(Fresh(3), []) && Run(Fresh(3), []) == Fresh(3);
    assert Fresh(3) == State(Lock(0, 0, false), [Idle, Idle, Idle]);
    OneMove(3, Fresh(3), 1, RequestWrite);
  }

  /** A reachable standstill: a reader sleeps for good with nobody inside or in front of it. */
  lemma {:induction false} InterruptedWriterStrandsReader()
    ensures exists s :: Reachable(3, s) && StuckReader(s)
  {
    ReaderBeforeWriter();
    var s1 := State(Lock(0, 1, false), [Idle, WantWrite(false), Idle]);
    var s2 := State(Lock(0, 1, false), [Idle, WantWrite(false), WantRead(false)]);
    var s3 := State(Lock(0, 1, false), [Idle, WantWrite(false), WantRead(true)]);
    var s4 := State(Lock(0, 0, false), [Idle, Idle, WantRead(true)]);
    assert Step(s1, 2, RequestRead) == s2 && Step(s2, 2, TestRead) == s3 && Step(s3, 1, AbandonWrite) == s4;
    OneMove(3, s1, 2, RequestRead);
    OneMove(3, s2, 2, TestRead);
    OneMove(3, s3, 1, AbandonWrite);
    assert s4.threads[2] == WantRead(true);
    assert StuckReader(s4);
  }

  ghost predicate StuckReader(s: State) {
    s.lock == Lock(0, 0, false) && (exists i :: 0 <= i < |s.threads| && s.threads[i] == WantRead(true))
      && forall t :: !CanMoveOn(s, t)
  }

  /** The gate object; each method is one critical section. */
  class InferenceGate {
    var readers: int
    var writers: int
    var writing: bool

    constructor ()
      ensures View() == Lock(0, 0, false)
    {
      readers, writers, writing := 0, 0, false;
    }

    function View(): Lock
      reads this
    {
      Lock(readers, writers, writing)
    }

    /** `__enter__` announces itself. */
    method Announce()
      modifies this
      ensures View() == Announced(old(View()))
    {
      writers := writers + 1;
    }

    /** `wait_for` tests; when admitted the writer is no longer waiting. */
    method TryWrite() returns (entered: bool)
      modifies this
      ensures entered == MayWrite(old(View()))
      ensures View() == if entered then WriterIn(old(View())) else old(View())
    {
      entered := !writing && readers == 0;
      if entered {
        writing := true;
        writers := writers - 1;
      }
    }

    /** An exception leaves the wait. */
    method Abandon()
      modifies this
      ensures View() == GivenUp(old(View()))
    {
      writers := writers - 1;
    }

    /** `__exit__`. */
    method LeaveWrite()
      modifies this
      ensures View() == WriterOut(old(View()))
    {
      writing := false;
    }

    /** `shared`. */
    method TryRead() returns (entered: bool)
      modifies this
      ensures entered == MayRead(old(View()))
      ensures View() == if entered then ReaderIn(old(View())) else old(View())
    {
      entered := !writing && writers == 0;
      if entered { readers := readers + 1; }
    }

    method LeaveRead()
      modifies this
      ensures View() == ReaderOut(old(View()))
    {
      readers := readers - 1;
    }
  }
}
