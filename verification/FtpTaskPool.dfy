/**
 The FTP server's pool of session tasks: a ring of pointers to free sessions, guarded by a
 mutex for the indices and a counting semaphore for the number of free sessions. Any number
 of threads obtain and release sessions, one machine step at a time.
 */
module FtpTaskPool {

  /** Where a thread is in `task_pool_obtain`, with a session, or in `task_pool_release`. */
  datatype Pc =
    | Idle                       // before the semaphore wait
    | PastWait
    | ObtainLocked
    | ObtainRead(info: nat)      // the slot at head is read
    | ObtainAdvanced(info: nat)  // head is moved on
    | InUse(info: nat)
    | ReleaseLocked(info: nat)
    | ReleaseStored(info: nat)   // the slot at tail is written
    | ReleaseAdvanced            // tail is moved on
    | Unposted                   // the mutex is released, the semaphore not yet posted

  datatype Owner = Nobody | Thread(id: nat)

  datatype State = State(queue: seq<nat>, head: nat, tail: nat, sem: nat, mutex: Owner, threads: seq<Pc>)

  /** `task_pool_init` with all tasks created. */
  function Init(count: nat, threads: nat): State {
    State(seq(count, i => i), 0, 0, count, Nobody, seq(threads, i => Idle))
  }

  /** An index of the ring moved on by one. */
  function Next(i: nat, count: nat): nat {
    if i + 1 >= count then 0 else i + 1
  }

  /** Thread t can take its next step. */
  predicate Enabled(s: State, t: nat) {
    && t < |s.threads|
    && match s.threads[t]
       case Idle => s.sem > 0
       case PastWait => s.mutex.Nobody?
       case InUse(_) => s.mutex.Nobody?
       case ObtainLocked => s.head < |s.queue|
       case ReleaseLocked(_) => s.tail < |s.queue|
       case _ => true
  }

  function Step(s: State, t: nat): State
    requires Enabled(s, t)
  {
    var n := |s.queue|;
    match s.threads[t]
    case Idle => s.(sem := s.sem - 1, threads := s.threads[t := PastWait])
    case PastWait => s.(mutex := Thread(t), threads := s.threads[t := ObtainLocked])
    case ObtainLocked => s.(threads := s.threads[t := ObtainRead(s.queue[s.head])])
    case ObtainRead(info) => s.(head := Next(s.head, n), threads := s.threads[t := ObtainAdvanced(info)])
    case ObtainAdvanced(info) => s.(mutex := Nobody, threads := s.threads[t := InUse(info)])
    case InUse(info) => s.(mutex := Thread(t), threads := s.threads[t := ReleaseLocked(info)])
    case ReleaseLocked(info) => s.(queue := s.queue[s.tail := info], threads := s.threads[t := ReleaseStored(info)])
    case ReleaseStored(_) => s.(tail := Next(s.tail, n), threads := s.threads[t := ReleaseAdvanced])
    case ReleaseAdvanced => s.(mutex := Nobody, threads := s.threads[t := Unposted])
    case Unposted => s.(sem := s.sem + 1, threads := s.threads[t := Idle])
  }

  /** A run: the numbers of the threads that take the steps. */
  predicate IsRun(count: nat, threads: nat, run: seq<nat>)
    decreases |run|, 0
  {
    run == [] ||
    (var n := |run| - 1;
     IsRun(count, threads, run[..n]) && Enabled(RunEnd(count, threads, run[..n]), run[n]))
  }

  function RunEnd(count: nat, threads: nat, run: seq<nat>): State
    requires IsRun(count, threads, run)
    decreases |run|, 1
  {
    if run == [] then Init(count, threads)
    else var n := |run| - 1; Step(RunEnd(count, threads, run[..n]), run[n])
  }

  // ---------------------------------------------------------------- counting threads

  /** Past the semaphore wait, head not yet moved on. */
  function Obtaining(p: Pc): nat { if p.PastWait? || p.ObtainLocked? || p.ObtainRead? then 1 else 0 }

  /** Tail moved on, semaphore not yet posted. */
  function Posting(p: Pc): nat { if p.ReleaseAdvanced? || p.Unposted? then 1 else 0 }

  predicate HasSession(p: Pc) { p.ObtainAdvanced? || p.InUse? || p.ReleaseLocked? || p.ReleaseStored? }

  function Using(p: Pc): nat { if HasSession(p) then 1 else 0 }

  predicate InSection(p: Pc) {
    p.ObtainLocked? || p.ObtainRead? || p.ObtainAdvanced? || p.ReleaseLocked? || p.ReleaseStored? || p.ReleaseAdvanced?
  }

  function Tally(f: Pc -> nat, threads: seq<Pc>): nat {
    if threads == [] then 0 else f(threads[0]) + Tally(f, threads[1..])
  }

  lemma {:induction false} TallyUpdate(f: Pc -> nat, threads: seq<Pc>, t: nat, p: Pc)
    requires t < |threads|
    ensures Tally(f, threads[t := p]) + f(threads[t]) == Tally(f, threads) + f(p)
    ensures f(threads[t]) <= Tally(f, threads)
  {
    if t > 0 {
      TallyUpdate(f, threads[1..], t - 1, p);
      assert threads[t := p][1..] == threads[1..][t - 1 := p];
    } else {
      assert threads[t := p][1..] == threads[1..];
    }
  }

  lemma {:induction false} TallyNone(f: Pc -> nat, threads: seq<Pc>)
    requires forall t :: 0 <= t < |threads| ==> f(threads[t]) == 0
    ensures Tally(f, threads) == 0
  {
    if threads != [] {
      TallyNone(f, threads[1..]);
    }
  }

  // ---------------------------------------------------------------- the ring as a queue

  /** The k-th slot from head on. */
  function Slot(head: nat, k: nat, count: nat): nat {
    if head + k < count then head + k else if head + k < 2 * count then head + k - count else 0
  }

  function Ring(queue: seq<nat>, head: nat, n: nat): seq<nat>
    requires head < |queue| && n <= |queue|
  {
    seq(n, k requires 0 <= k < n => queue[Slot(head, k, |queue|)])
  }

  /** The number of filled slots, as the semaphore and the threads on their way see it. */
  function Filled(s: State): nat {
    s.sem + Tally(Obtaining, s.threads) + Tally(Posting, s.threads)
  }

  /** The free sessions, the one to be handed out next first. */
  function Free(s: State): seq<nat>
    requires |s.queue| > 0 ==> s.head < |s.queue|
  {
    if Filled(s) <= |s.queue| && |s.queue| > 0 then Ring(s.queue, s.head, Filled(s)) else []
  }

  lemma RingPop(queue: seq<nat>, head: nat, n: nat)
    requires head < |queue| && 0 < n <= |queue|
    ensures Next(head, |queue|) < |queue|
    ensures Ring(queue, head, n) == [queue[head]] + Ring(queue, Next(head, |queue|), n - 1)
    ensures Slot(Next(head, |queue|), n - 1, |queue|) == Slot(head, n, |queue|)
  {
  }

  lemma RingStore(queue: seq<nat>, head: nat, n: nat, x: nat)
    requires head < |queue| && n < |queue|
    ensures Slot(head, n, |queue|) < |queue|
    ensures Ring(queue[Slot(head, n, |queue|) := x], head, n) == Ring(queue, head, n)
  {
  }

  lemma RingPush(queue: seq<nat>, head: nat, n: nat)
    requires head < |queue| && n < |queue|
    ensures Ring(queue, head, n + 1) == Ring(queue, head, n) + [queue[Slot(head, n, |queue|)]]
    ensures Next(Slot(head, n, |queue|), |queue|) == Slot(head, n + 1, |queue|)
  {
  }

  // ---------------------------------------------------------------- invariants

  predicate MutexInv(s: State) {
    forall t :: 0 <= t < |s.threads| ==> (InSection(s.threads[t]) <==> s.mutex == Thread(t))
  }

  /** Every session is either in a filled slot or in use, and tail is right behind the filled
      slots. */
  predicate CountInv(s: State) {
    && Filled(s) + Tally(Using, s.threads) == |s.queue|
    && (|s.queue| > 0 ==> s.head < |s.queue| && s.tail == Slot(s.head, Filled(s), |s.queue|))
  }

  /** What a thread in the middle of moving a session has done so far. */
  predicate MovingInv(s: State)
    requires CountInv(s)
  {
    forall t :: 0 <= t < |s.threads| ==>
      && (s.threads[t].ObtainRead? ==> |s.queue| > 0 && s.threads[t].info == s.queue[s.head])
      && (s.threads[t].ReleaseStored? ==> s.tail < |s.queue| && s.queue[s.tail] == s.threads[t].info)
  }

  predicate Distinct(free: seq<nat>) {
    forall i, j :: 0 <= i < j < |free| ==> free[i] != free[j]
  }

  /** No session is in two places. */
  predicate Apart(free: seq<nat>, threads: seq<Pc>) {
    && Distinct(free)
    && (forall t :: 0 <= t < |threads| && HasSession(threads[t]) ==> threads[t].info !in free)
    && (forall t, u :: 0 <= t < u < |threads| && HasSession(threads[t]) && HasSession(threads[u]) ==>
          threads[t].info != threads[u].info)
  }

  predicate InRange(free: seq<nat>, threads: seq<Pc>, count: nat) {
    && (forall i :: 0 <= i < |free| ==> free[i] < count)
    && (forall t :: 0 <= t < |threads| && HasSession(threads[t]) ==> threads[t].info < count)
  }

  predicate Placed(free: seq<nat>, threads: seq<Pc>, count: nat) {
    Apart(free, threads) && InRange(free, threads, count)
  }

  predicate Inv(s: State) {
    && MutexInv(s) && CountInv(s) && MovingInv(s)
    && Placed(Free(s), s.threads, |s.queue|)
  }

  /** How a step of thread t changes the tallies. */
  lemma TallyStep(s: State, t: nat)
    requires Enabled(s, t)
    ensures var p, q := s.threads[t], Step(s, t).threads[t];
            && Tally(Using, Step(s, t).threads) + Using(p) == Tally(Using, s.threads) + Using(q)
            && Filled(Step(s, t)) + Obtaining(p) + Posting(p) + s.sem
               == Filled(s) + Obtaining(q) + Posting(q) + Step(s, t).sem
            && Tally(Using, s.threads) >= Using(p) && Filled(s) >= Obtaining(p) + Posting(p)
            && Step(s, t).threads == s.threads[t := q]
  {
    var q := Step(s, t).threads[t];
    TallyUpdate(Using, s.threads, t, q);
    TallyUpdate(Obtaining, s.threads, t, q);
    TallyUpdate(Posting, s.threads, t, q);
  }

  /** The ring as a first-in first-out queue: only moving head takes a session out, from the
      front, and only moving tail puts one in, at the back; no other step changes the queue of
      free sessions. In particular storing a session never touches a filled slot. */
  predicate QueueStep(s: State, t: nat)
    requires Enabled(s, t) && CountInv(s) && CountInv(Step(s, t))
  {
    match s.threads[t]
    case ObtainRead(info) => Free(s) == [info] + Free(Step(s, t))
    case ReleaseStored(info) => Free(Step(s, t)) == Free(s) + [info]
    case _ => Free(Step(s, t)) == Free(s)
  }

  lemma CountKept(s: State, t: nat)
    requires Enabled(s, t) && CountInv(s)
    ensures CountInv(Step(s, t))
  {
    TallyStep(s, t);
    var n := Filled(s);
    if s.threads[t].ObtainRead? {
      RingPop(s.queue, s.head, n);
    } else if s.threads[t].ReleaseStored? {
      RingPush(s.queue, s.head, n);
    }
  }

  lemma QueueKept(s: State, t: nat)
    requires Enabled(s, t) && CountInv(s) && MovingInv(s) && CountInv(Step(s, t))
    ensures QueueStep(s, t)
  {
    TallyStep(s, t);
    var n := Filled(s);
    match s.threads[t]
    case ObtainRead(_) => RingPop(s.queue, s.head, n);
    case ReleaseStored(_) => RingPush(s.queue, s.head, n);
    case ReleaseLocked(info) => RingStore(s.queue, s.head, n, info);
    case _ =>
  }

  lemma MutexKept(s: State, t: nat)
    requires Enabled(s, t) && MutexInv(s)
    ensures MutexInv(Step(s, t))
  {
  }

  lemma MovingKept(s: State, t: nat)
    requires Enabled(s, t) && MutexInv(s) && CountInv(s) && MovingInv(s) && CountInv(Step(s, t))
    ensures MovingInv(Step(s, t))
  {
  }

  lemma TakenOut(free: seq<nat>, threads: seq<Pc>, count: nat, t: nat, q: Pc)
    requires free != [] && t < |threads| && !HasSession(threads[t]) && HasSession(q) && q.info == free[0]
    requires Placed(free, threads, count)
    ensures Placed(free[1..], threads[t := q], count)
  {
  }

  lemma PutIn(free: seq<nat>, threads: seq<Pc>, count: nat, t: nat, q: Pc)
    requires t < |threads| && HasSession(threads[t]) && !HasSession(q)
    requires Placed(free, threads, count)
    ensures Placed(free + [threads[t].info], threads[t := q], count)
  {
  }

  lemma Unmoved(free: seq<nat>, threads: seq<Pc>, count: nat, t: nat, q: Pc)
    requires t < |threads| && HasSession(threads[t]) == HasSession(q) && (HasSession(q) ==> q.info == threads[t].info)
    requires Placed(free, threads, count)
    ensures Placed(free, threads[t := q], count)
  {
  }

  lemma ApartKept(s: State, t: nat)
    requires Enabled(s, t) && CountInv(s) && CountInv(Step(s, t)) && QueueStep(s, t)
    requires Placed(Free(s), s.threads, |s.queue|)
    ensures Placed(Free(Step(s, t)), Step(s, t).threads, |s.queue|)
  {
    var q := Step(s, t).threads[t];
    match s.threads[t]
    case ObtainRead(info) =>
      TakenOut(Free(s), s.threads, |s.queue|, t, q);
      assert Free(s)[1..] == Free(Step(s, t));
    case ReleaseStored(info) => PutIn(Free(s), s.threads, |s.queue|, t, q);
    case _ => Unmoved(Free(s), s.threads, |s.queue|, t, q);
  }

  lemma InvKept(s: State, t: nat)
    requires Enabled(s, t) && Inv(s)
    ensures Inv(Step(s, t)) && QueueStep(s, t) && |Step(s, t).queue| == |s.queue|
  {
    CountKept(s, t);
    QueueKept(s, t);
    MutexKept(s, t);
    MovingKept(s, t);
    ApartKept(s, t);
  }

  lemma InitInv(count: nat, threads: nat)
    ensures Inv(Init(count, threads))
  {
    var s := Init(count, threads);
    TallyNone(Obtaining, s.threads);
    TallyNone(Posting, s.threads);
    TallyNone(Using, s.threads);
  }

  lemma {:induction false} ReachableInv(count: nat, threads: nat, run: seq<nat>)
    requires IsRun(count, threads, run)
    ensures Inv(RunEnd(count, threads, run)) && |RunEnd(count, threads, run).queue| == count
  {
    if run == [] {
      InitInv(count, threads);
    } else {
      var n := |run| - 1;
      ReachableInv(count, threads, run[..n]);
      InvKept(RunEnd(count, threads, run[..n]), run[n]);
    }
  }

  // ---------------------------------------------------------------- the theorems

  lemma TallyPositive(f: Pc -> nat, threads: seq<Pc>, t: nat)
    requires t < |threads|
    ensures f(threads[t]) <= Tally(f, threads)
  {
    TallyUpdate(f, threads, t, threads[t]);
  }

  /** In every state of every run: filled slots and sessions in use add up to the pool, no
      session is in two places, a thread about to read finds a filled slot at head, and a
      thread about to store finds an empty one at tail. */
  lemma PoolSafety(count: nat, threads: nat, run: seq<nat>, t: nat)
    requires IsRun(count, threads, run) && t < |RunEnd(count, threads, run).threads|
    ensures var s := RunEnd(count, threads, run);
            && |s.queue| == count && Filled(s) + Tally(Using, s.threads) == count
            && (count > 0 ==> s.head < count && s.tail < count && |Free(s)| == Filled(s))
            && (count > 0 ==> Placed(Free(s), s.threads, count))
            && (s.threads[t].ObtainLocked? ==> count > 0 && Filled(s) > 0 && s.queue[s.head] == Free(s)[0])
            && (s.threads[t].ReleaseLocked? ==>
                  s.tail < count && forall k :: 0 <= k < Filled(s) ==> Slot(s.head, k, count) != s.tail)
  {
    var s := RunEnd(count, threads, run);
    ReachableInv(count, threads, run);
    TallyPositive(Using, s.threads, t);
    TallyPositive(Obtaining, s.threads, t);
  }

  /** In the middle of an obtain or a release. */
  predicate MidCall(p: Pc) { !p.Idle? && !p.InUse? }

  /** A call in progress never gets stuck: somebody in the middle of a call can take a step. */
  lemma NeverStuck(count: nat, threads: nat, run: seq<nat>, t: nat)
    requires IsRun(count, threads, run) && t < |RunEnd(count, threads, run).threads|
    requires MidCall(RunEnd(count, threads, run).threads[t])
    ensures var s := RunEnd(count, threads, run);
            exists u :: 0 <= u < |s.threads| && MidCall(s.threads[u]) && Enabled(s, u)
  {
    var s := RunEnd(count, threads, run);
    ReachableInv(count, threads, run);
    PoolSafety(count, threads, run, t);
    if s.mutex.Thread? && s.mutex.id < |s.threads| {
      var u := s.mutex.id;
      assert InSection(s.threads[u]);
      PoolSafety(count, threads, run, u);
      assert Enabled(s, u);
    } else {
      assert MutexOwned(s) by { MutexOwnedReachable(count, threads, run); }
      assert Enabled(s, t);
    }
  }

  predicate MutexOwned(s: State) {
    s.mutex.Thread? ==> s.mutex.id < |s.threads|
  }

  lemma {:induction false} MutexOwnedReachable(count: nat, threads: nat, run: seq<nat>)
    requires IsRun(count, threads, run)
    ensures MutexOwned(RunEnd(count, threads, run))
  {
    if run != [] {
      MutexOwnedReachable(count, threads, run[..|run| - 1]);
    }
  }

  /** With nobody in the middle of a call, an obtain blocks exactly when all sessions of the
      pool are in use. */
  lemma BlocksOnlyWhenExhausted(count: nat, threads: nat, run: seq<nat>)
    requires IsRun(count, threads, run)
    requires NobodyMidCall(RunEnd(count, threads, run))
    ensures var s := RunEnd(count, threads, run);
            && s.sem + Tally(Using, s.threads) == count
            && (s.sem == 0 <==> Tally(Using, s.threads) == count)
  {
    var s := RunEnd(count, threads, run);
    ReachableInv(count, threads, run);
    TallyNone(Obtaining, s.threads);
    TallyNone(Posting, s.threads);
  }

  /** With nobody in the middle of a call, a thread that wants a session gets past the wait if
      and only if not all sessions of the pool are in use. */
  lemma ObtainsUnlessExhausted(count: nat, threads: nat, run: seq<nat>, t: nat)
    requires IsRun(count, threads, run)
    requires NobodyMidCall(RunEnd(count, threads, run)) && t < |RunEnd(count, threads, run).threads|
    requires RunEnd(count, threads, run).threads[t] == Idle
    ensures var s := RunEnd(count, threads, run); Enabled(s, t) <==> Tally(Using, s.threads) < count
  {
    BlocksOnlyWhenExhausted(count, threads, run);
  }

  predicate NobodyMidCall(s: State) {
    forall t :: 0 <= t < |s.threads| ==> !MidCall(s.threads[t])
  }

  /** The state after k steps of thread t alone. */
  function Alone(s: State, t: nat, k: nat): State
    decreases k
  {
    if k == 0 || !Enabled(s, t) then s else Alone(Step(s, t), t, k - 1)
  }

  lemma MutexFree(count: nat, threads: nat, run: seq<nat>)
    requires IsRun(count, threads, run) && NobodyMidCall(RunEnd(count, threads, run))
    ensures RunEnd(count, threads, run).mutex == Nobody
  {
    var s := RunEnd(count, threads, run);
    ReachableInv(count, threads, run);
    MutexOwnedReachable(count, threads, run);
    assert s.mutex.Thread? ==> MidCall(s.threads[s.mutex.id]);
  }

  /** The five steps of an obtain. */
  lemma ObtainSteps(s: State, t: nat)
    requires t < |s.threads| && s.threads[t] == Idle && s.sem > 0 && s.mutex == Nobody && s.head < |s.queue|
    ensures Alone(s, t, 5) == s.(sem := s.sem - 1, head := Next(s.head, |s.queue|),
                                 threads := s.threads[t := InUse(s.queue[s.head])])
  {
    var info := s.queue[s.head];
    var s1 := Step(s, t);
    var s2 := Step(s1, t);
    var s3 := Step(s2, t);
    var s4 := Step(s3, t);
    assert s1.threads == s.threads[t := PastWait];
    assert s2.threads == s.threads[t := ObtainLocked];
    assert s3.threads == s.threads[t := ObtainRead(info)];
    assert s4.threads == s.threads[t := ObtainAdvanced(info)];
    assert Alone(s4, t, 1) == Step(s4, t);
    assert Alone(s3, t, 2) == Alone(s4, t, 1);
    assert Alone(s2, t, 3) == Alone(s3, t, 2);
    assert Alone(s1, t, 4) == Alone(s2, t, 3);
  }

  /** The five steps of a release. */
  lemma ReleaseSteps(s: State, t: nat)
    requires t < |s.threads| && s.threads[t].InUse? && s.mutex == Nobody && s.tail < |s.queue|
    ensures Alone(s, t, 5) == s.(sem := s.sem + 1, tail := Next(s.tail, |s.queue|),
                                 queue := s.queue[s.tail := s.threads[t].info], threads := s.threads[t := Idle])
  {
    var info := s.threads[t].info;
    var s1 := Step(s, t);
    var s2 := Step(s1, t);
    var s3 := Step(s2, t);
    var s4 := Step(s3, t);
    assert s1.threads == s.threads[t := ReleaseLocked(info)];
    assert s2.threads == s.threads[t := ReleaseStored(info)];
    assert s3.threads == s.threads[t := ReleaseAdvanced];
    assert s4.threads == s.threads[t := Unposted];
    assert Alone(s4, t, 1) == Step(s4, t);
    assert Alone(s3, t, 2) == Alone(s4, t, 1);
    assert Alone(s2, t, 3) == Alone(s3, t, 2);
    assert Alone(s1, t, 4) == Alone(s2, t, 3);
  }

  lemma FilledIsSem(s: State)
    requires NobodyMidCall(s)
    ensures Filled(s) == s.sem
  {
    TallyNone(Obtaining, s.threads);
    TallyNone(Posting, s.threads);
  }

  lemma OnlyOneChanged(s: State, t: nat, p: Pc)
    requires NobodyMidCall(s) && t < |s.threads| && !MidCall(p)
    ensures NobodyMidCall(s.(threads := s.threads[t := p]))
  {
  }

  /** An obtain that runs without interruption while sessions are free hands out the one at the
      front of the queue of free sessions, and leaves the others. */
  lemma ObtainAlone(count: nat, threads: nat, run: seq<nat>, t: nat)
    requires IsRun(count, threads, run) && NobodyMidCall(RunEnd(count, threads, run))
    requires var s := RunEnd(count, threads, run);
             t < |s.threads| && s.threads[t] == Idle && Tally(Using, s.threads) < count
    ensures var s := RunEnd(count, threads, run);
            var e := Alone(s, t, 5);
            && s.head < |s.queue| && e.head < |e.queue| && Free(s) != []
            && e.threads == s.threads[t := InUse(Free(s)[0])] && Free(e) == Free(s)[1..]
  {
    var s := RunEnd(count, threads, run);
    ReachableInv(count, threads, run);
    BlocksOnlyWhenExhausted(count, threads, run);
    MutexFree(count, threads, run);
    ObtainSteps(s, t);
    FilledIsSem(s);
    OnlyOneChanged(s, t, InUse(s.queue[s.head]));
    FilledIsSem(Alone(s, t, 5));
    RingPop(s.queue, s.head, s.sem);
  }

  /** A release that runs without interruption puts the session at the end of the queue. */
  lemma ReleaseAlone(count: nat, threads: nat, run: seq<nat>, t: nat)
    requires IsRun(count, threads, run) && NobodyMidCall(RunEnd(count, threads, run))
    requires var s := RunEnd(count, threads, run); t < |s.threads| && s.threads[t].InUse?
    ensures var s := RunEnd(count, threads, run);
            var e := Alone(s, t, 5);
            && s.head < |s.queue| && e.head < |e.queue|
            && e.threads == s.threads[t := Idle] && Free(e) == Free(s) + [s.threads[t].info]
  {
    var s := RunEnd(count, threads, run);
    ReachableInv(count, threads, run);
    TallyPositive(Using, s.threads, t);
    BlocksOnlyWhenExhausted(count, threads, run);
    MutexFree(count, threads, run);
    FilledIsSem(s);
    ReleaseSteps(s, t);
    OnlyOneChanged(s, t, Idle);
    FilledIsSem(Alone(s, t, 5));
    RingStore(s.queue, s.head, s.sem, s.threads[t].info);
    RingPush(s.queue[s.tail := s.threads[t].info], s.head, s.sem);
  }

  /** Sessions are handed out in the order in which they came back: moving head hands out the
      front of the queue of free sessions, moving tail appends to it, and no other step of any
      thread changes it. */
  lemma FirstInFirstOut(count: nat, threads: nat, run: seq<nat>, t: nat)
    requires IsRun(count, threads, run) && Enabled(RunEnd(count, threads, run), t)
    ensures var s := RunEnd(count, threads, run);
            && CountInv(s) && CountInv(Step(s, t)) && QueueStep(s, t)
  {
    ReachableInv(count, threads, run);
    InvKept(RunEnd(count, threads, run), t);
  }
}
