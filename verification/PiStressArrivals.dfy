/**
 Arrivals at the barriers of a pi_stress group: how they are tied to the passing of the
 barriers in every run, and that the medium thread's arrival at the elevate barrier and the low
 thread's locking come in either order.
 */
module PiStressArrivals {
  import opened PiStress
  import opened PiStressInvariant
  import opened PiStressSystem

  /** The threads of a group that use a barrier. */
  predicate Joins(r: Role, b: Barrier) {
    match b
    case Locked => r != Med
    case Elevate => r != High
    case _ => true
  }

  predicate IsGroupBarrier(b: Barrier) { b != Ready && b != Done }

  function Count(trace: seq<Event>, e: Event): nat {
    if trace == [] then 0 else Count(trace[..|trace| - 1], e) + if trace[|trace| - 1] == e then 1 else 0
  }

  lemma CountSnoc(trace: seq<Event>, f: Event, e: Event)
    ensures Count(trace + [f], e) == Count(trace, e) + if f == e then 1 else 0
  {
    assert (trace + [f])[..|trace|] == trace;
  }

  /** The thread has arrived at the barrier once for every passing, and once more if it is
      inside. */
  predicate ArrivalsOk(g: Group, r: Role, b: Barrier) {
    Count(g.vars.trace, Arrives(r, b)) == Count(g.vars.trace, Passed(b)) + if PcOf(g, r) == Wait(b) then 1 else 0
  }

  lemma StepTrace(t: Thread, m: Shared, r: Role, me: Tid, inversions: int)
    requires ThreadEnabled(t.pc, m)
    ensures var n := ThreadStep(t, m, r, me, inversions);
            if t.pc.Call? then n.m.vars.trace == m.vars.trace + [Arrives(r, t.pc.barrier)] && n.t.pc == Wait(t.pc.barrier)
            else !n.t.pc.Wait? && (n.m.vars.trace == m.vars.trace
                 || n.m.vars.trace == m.vars.trace + [Locks(r)] || n.m.vars.trace == m.vars.trace + [Unlocks(r)])
  {
  }

  lemma LocalArrivals(g: Group, m: Shared, r: Role, i: nat, inversions: int, q: Role, b: Barrier)
    requires m.vars == g.vars && ThreadEnabled(PcOf(g, r), m) && ArrivalsOk(g, q, b)
    ensures var (g', m') := GroupStep(g, m, r, i, inversions); ArrivalsOk(g', q, b)
  {
    var pc := PcOf(g, r);
    StepTrace(ThreadOf(g, r), m, r, Worker(i, r), inversions);
    var e := if pc.Call? then Arrives(r, pc.barrier) else Locks(r);
    CountSnoc(g.vars.trace, e, Arrives(q, b));
    CountSnoc(g.vars.trace, e, Passed(b));
    CountSnoc(g.vars.trace, Unlocks(r), Arrives(q, b));
    CountSnoc(g.vars.trace, Unlocks(r), Passed(b));
  }

  /** When a barrier passes, the threads that use it are inside. */
  lemma JoinersWait(g: Group, b: Barrier, serial: Role, shutdown: bool, r: Role)
    requires StageOk(g, StageOf(g), shutdown) && PassEnabled(g, b, serial) && Joins(r, b)
    ensures PcOf(g, r) == Wait(b)
  {
    PassStage(g, b, serial, shutdown);
  }

  lemma ReleasedWaits(g: Group, b': Barrier, serial: Role, r: Role, b: Barrier)
    ensures (PcOf(PassStep(g, b', serial), r) == Wait(b)) == (PcOf(g, r) == Wait(b) && b != b')
  {
  }

  lemma PassArrivals(g: Group, b': Barrier, serial: Role, r: Role, b: Barrier)
    requires ArrivalsOk(g, r, b) && (b == b' ==> PcOf(g, r) == Wait(b))
    ensures ArrivalsOk(PassStep(g, b', serial), r, b)
  {
    ReleasedWaits(g, b', serial, r, b);
    CountSnoc(g.vars.trace, Passed(b'), Arrives(r, b));
    CountSnoc(g.vars.trace, Passed(b'), Passed(b));
  }

  lemma ReleaseArrivals(g: Group, b': Barrier, r: Role, b: Barrier)
    requires !IsGroupBarrier(b') && IsGroupBarrier(b) && ArrivalsOk(g, r, b)
    ensures ArrivalsOk(ReleaseAll(g, b', Low), r, b)
  {
  }

  predicate AllArrivalsOk(s: State, r: Role, b: Barrier) {
    forall i :: 0 <= i < |s.groups| ==> ArrivalsOk(s.groups[i], r, b)
  }

  lemma LocalAllArrivals(s: State, i: nat, q: Role, r: Role, b: Barrier)
    requires Enabled(s, Local(i, q)) && AllArrivalsOk(s, r, b)
    ensures AllArrivalsOk(LocalApply(s, i, q), r, b)
  {
    LocalArrivals(s.groups[i], SharedOf(s, i), q, i, s.inversions, r, b);
  }

  lemma PassAllArrivals(s: State, i: nat, b': Barrier, serial: Role, r: Role, b: Barrier)
    requires Enabled(s, Pass(i, b', serial)) && StageOk(s.groups[i], StageOf(s.groups[i]), s.shutdown)
    requires Joins(r, b) && AllArrivalsOk(s, r, b)
    ensures AllArrivalsOk(s.(groups := s.groups[i := PassStep(s.groups[i], b', serial)]), r, b)
  {
    if b == b' {
      JoinersWait(s.groups[i], b', serial, s.shutdown, r);
    }
    PassArrivals(s.groups[i], b', serial, r, b);
  }

  lemma GlobalAllArrivals(s: State, s': State, b': Barrier, r: Role, b: Barrier)
    requires s'.groups == ReleaseGroups(s.groups, b')
    requires !IsGroupBarrier(b') && IsGroupBarrier(b) && AllArrivalsOk(s, r, b)
    ensures AllArrivalsOk(s', r, b)
  {
    forall i | 0 <= i < |s.groups| ensures ArrivalsOk(s'.groups[i], r, b) {
      ReleaseArrivals(s.groups[i], b', r, b);
    }
  }

  lemma StepArrivals(s: State, a: Action, r: Role, b: Barrier)
    requires GroupsOk(s) && Enabled(s, a) && Joins(r, b) && IsGroupBarrier(b) && AllArrivalsOk(s, r, b)
    ensures AllArrivalsOk(Apply(s, a), r, b)
  {
    match a
    case Local(i, q) => LocalAllArrivals(s, i, q, r, b);
    case Pass(i, b', serial) =>
      assert GroupOk(s.groups[i], SharedOf(s, i), i, s.inversions);
      PassAllArrivals(s, i, b', serial, r, b);
    case PassReady => GlobalAllArrivals(s, Apply(s, a), Ready, r, b);
    case PassDone => GlobalAllArrivals(s, Apply(s, a), Done, r, b);
    case MainStep(expired) => assert MainApply(s, expired).groups == s.groups;
  }

  lemma {:induction false} RunArrivals(s: State, actions: seq<Action>, r: Role, b: Barrier)
    requires Inv(s) && IsRun(s, actions) && Joins(r, b) && IsGroupBarrier(b) && AllArrivalsOk(s, r, b)
    ensures AllArrivalsOk(RunEnd(s, actions), r, b)
    decreases |actions|
  {
    if actions != [] {
      StepArrivals(s, actions[0], r, b);
      StepKeepsInv(s, actions[0]);
      RunArrivals(Apply(s, actions[0]), actions[1..], r, b);
    }
  }

  /** In every run every thread arrives exactly once for each passing of each of its barriers,
      and the passing comes after the arrivals. */
  lemma OneArrivalPerPassing(s: State, ngroups: nat, inversions: int, i: nat, r: Role, b: Barrier)
    requires Reachable(s, ngroups, inversions) && i < ngroups && Joins(r, b) && IsGroupBarrier(b)
    ensures i < |s.groups| && ArrivalsOk(s.groups[i], r, b)
  {
    ReachableInv(s, ngroups, inversions);
    InitInv(ngroups, inversions);
    var actions :| IsRun(Init(ngroups, inversions), actions) && s == RunEnd(Init(ngroups, inversions), actions);
    RunArrivals(Init(ngroups, inversions), actions, r, b);
  }

  // ---------------------------------------------------------------- two runs

  lemma {:induction false} RunSnoc(s: State, actions: seq<Action>, a: Action)
    requires IsRun(s, actions) && Enabled(RunEnd(s, actions), a)
    ensures IsRun(s, actions + [a]) && RunEnd(s, actions + [a]) == Apply(RunEnd(s, actions), a)
    decreases |actions|
  {
    if actions == [] {
      assert actions + [a] == [a] && [a][1..] == [];
    } else {
      assert (actions + [a])[1..] == actions[1..] + [a];
      RunSnoc(Apply(s, actions[0]), actions[1..], a);
    }
  }

  lemma ReachableStep(s: State, a: Action, s': State)
    requires Reachable(s, 1, -1) && Enabled(s, a) && s' == Apply(s, a)
    ensures Reachable(s', 1, -1)
  {
    var actions :| IsRun(Init(1, -1), actions) && s == RunEnd(Init(1, -1), actions);
    RunSnoc(Init(1, -1), actions, a);
  }

  /** One group without a limit, while main polls and nobody asks for the end. */
  function Scene(g: Group, main: MainPc, owner: Option<Tid>): State {
    State([g], main, false, owner, -1)
  }

  /** A statement of one thread in a scene. */
  lemma SceneStep(g: Group, main: MainPc, owner: Option<Tid>, r: Role, g': Group, owner': Option<Tid>)
    requires Reachable(Scene(g, main, owner), 1, -1) && ThreadEnabled(PcOf(g, r), Shared(g.vars, false, owner))
    requires ThreadStep(ThreadOf(g, r), Shared(g.vars, false, owner), r, Worker(0, r), -1)
          == Moved(ThreadOf(g', r), Shared(g'.vars, false, owner'))
    requires g' == Put(g, r, ThreadOf(g', r)).(vars := g'.vars)
    ensures Reachable(Scene(g', main, owner'), 1, -1)
  {
    ReachableStep(Scene(g, main, owner), Local(0, r), Scene(g', main, owner'));
  }

  lemma Arrive(g: Group, main: MainPc, r: Role, b: Barrier)
    requires Reachable(Scene(g, main, None), 1, -1) && PcOf(g, r) == Call(b)
    ensures Reachable(Scene(Arrived(g, r, b), main, None), 1, -1)
  {
    SceneStep(g, main, None, r, Arrived(g, r, b), None);
  }

  /** A thread reads `loop` and comes to the loop barrier. */
  function AtLoop(g: Group, r: Role): Group {
    Put(g, r, Thread(Call(Loop), ThreadOf(g, r).seen + [true]))
  }

  lemma ToLoop(g: Group, r: Role)
    requires Reachable(Scene(g, PollLock, None), 1, -1) && PcOf(g, r) == Top && g.vars.loop && g.vars.loopOwner == None
    ensures Reachable(Scene(AtLoop(g, r), PollLock, None), 1, -1)
  {
    var t := ThreadOf(g, r);
    var g1 := Put(g, r, t.(pc := LoopLock));
    var g2 := Put(g, r, t.(pc := LoopRead)).(vars := g.vars.(loopOwner := Some(r)));
    SceneStep(g, PollLock, None, r, g1, None);
    SceneStep(g1, PollLock, None, r, g2, None);
    SceneStep(g2, PollLock, None, r, AtLoop(g, r), None);
  }

  lemma PassScene(g: Group, b: Barrier)
    requires Reachable(Scene(g, PollLock, None), 1, -1) && PassEnabled(g, b, Low)
    ensures Reachable(Scene(PassStep(g, b, Low), PollLock, None), 1, -1)
  {
    ReachableStep(Scene(g, PollLock, None), Pass(0, b, Low), Scene(PassStep(g, b, Low), PollLock, None));
  }

  /** The serial thread finds that nobody asks for the end. */
  lemma ToStart(g: Group)
    requires Reachable(Scene(g, PollLock, None), 1, -1) && g.low.pc == CheckLock
    ensures Reachable(Scene(g.(low := g.low.(pc := Call(Start))), PollLock, None), 1, -1)
  {
    var g1 := g.(low := g.low.(pc := CheckRead));
    SceneStep(g, PollLock, None, Low, g1, Some(Worker(0, Low)));
    SceneStep(g1, PollLock, Some(Worker(0, Low)), Low, g.(low := g.low.(pc := Call(Start))), None);
  }

  function ThreeArrive(g: Group, b: Barrier): Group {
    Arrived(Arrived(Arrived(g, Low, b), Med, b), High, b)
  }

  lemma AllArrive(g: Group, main: MainPc, b: Barrier)
    requires Reachable(Scene(g, main, None), 1, -1) && AllAt(g, Call(b))
    ensures Reachable(Scene(ThreeArrive(g, b), main, None), 1, -1)
  {
    Arrive(g, main, Low, b);
    Arrive(Arrived(g, Low, b), main, Med, b);
    Arrive(Arrived(Arrived(g, Low, b), Med, b), main, High, b);
  }

  const READY := ReleaseAll(ThreeArrive(FRESH_GROUP, Ready), Ready, Low)

  lemma ReachesReady()
    ensures Reachable(Scene(READY, PollLock, None), 1, -1) && AllAt(READY, Top)
    ensures READY.vars.loop && READY.vars.loopOwner == None && READY.vars.mutexOwner == None
  {
    var s := Scene(FRESH_GROUP, MainWait(Ready), None);
    assert s == Init(1, -1);
    assert IsRun(s, []) && RunEnd(s, []) == s;
    AllArrive(FRESH_GROUP, MainWait(Ready), Ready);
    var g := ThreeArrive(FRESH_GROUP, Ready);
    var s' := Scene(g, MainWait(Ready), None);
    EverybodyWaits(s'.groups, Ready);
    assert ReleaseGroups([g], Ready) == [READY];
    ReachableStep(s', PassReady, Scene(READY, PollLock, None));
  }

  /** The first round up to the start barrier. */
  lemma ReachesStart() returns (g: Group)
    ensures Reachable(Scene(g, PollLock, None), 1, -1) && AllAt(g, Wait(Start)) && g.vars.mutexOwner == None
  {
    ReachesReady();
    var a := AtLoop(AtLoop(AtLoop(READY, Low), Med), High);
    ToLoop(READY, Low);
    ToLoop(AtLoop(READY, Low), Med);
    ToLoop(AtLoop(AtLoop(READY, Low), Med), High);
    AllArrive(a, PollLock, Loop);
    var b := ThreeArrive(a, Loop);
    PassScene(b, Loop);
    var c := PassStep(b, Loop, Low);
    ToStart(c);
    var d := c.(low := c.low.(pc := Call(Start)));
    AllArrive(d, PollLock, Start);
    g := ThreeArrive(d, Start);
  }

  predicate EndsWith(trace: seq<Event>, end: seq<Event>) {
    |end| <= |trace| && trace[|trace| - |end|..] == end
  }

  function Locking(g: Group): Group {
    g.(low := g.low.(pc := Call(Locked)), vars := Record(g.vars.(mutexOwner := Some(Low)), Locks(Low)))
  }

  lemma LowLocks(g: Group)
    requires Reachable(Scene(g, PollLock, None), 1, -1) && g.low.pc == MutexLock && g.vars.mutexOwner == None
    ensures Reachable(Scene(Locking(g), PollLock, None), 1, -1)
  {
    SceneStep(g, PollLock, None, Low, Locking(g), None);
  }

  /** The group behind the start barrier: low is about to lock, medium to arrive. */
  predicate BehindStart(h: Group) {
    && h.low.pc == MutexLock && h.med.pc == Call(Elevate) && h.vars.mutexOwner == None
    && EndsWith(h.vars.trace, [Passed(Start)])
  }

  lemma TwoMore(trace: seq<Event>, d: Event, e: Event, f: Event)
    requires EndsWith(trace, [d])
    ensures EndsWith((trace + [e]) + [f], [d, e, f])
  {
  }

  lemma ArrivalFirst(h: Group) returns (s: State)
    requires Reachable(Scene(h, PollLock, None), 1, -1) && BehindStart(h)
    ensures Reachable(s, 1, -1) && |s.groups| == 1
            && EndsWith(s.groups[0].vars.trace, [Passed(Start), Arrives(Med, Elevate), Locks(Low)])
  {
    Arrive(h, PollLock, Med, Elevate);
    LowLocks(Arrived(h, Med, Elevate));
    TwoMore(h.vars.trace, Passed(Start), Arrives(Med, Elevate), Locks(Low));
    s := Scene(Locking(Arrived(h, Med, Elevate)), PollLock, None);
  }

  lemma LockFirst(h: Group) returns (s: State)
    requires Reachable(Scene(h, PollLock, None), 1, -1) && BehindStart(h)
    ensures Reachable(s, 1, -1) && |s.groups| == 1
            && EndsWith(s.groups[0].vars.trace, [Passed(Start), Locks(Low), Arrives(Med, Elevate)])
  {
    LowLocks(h);
    Arrive(Locking(h), PollLock, Med, Elevate);
    TwoMore(h.vars.trace, Passed(Start), Locks(Low), Arrives(Med, Elevate));
    s := Scene(Arrived(Locking(h), Med, Elevate), PollLock, None);
  }

  /** Both orders occur: in one run the medium thread arrives at the elevate barrier before the
      low thread has locked the mutex of that round, in another run after it. */
  lemma BothOrders() returns (before: State, after: State)
    ensures Reachable(before, 1, -1) && |before.groups| == 1
            && EndsWith(before.groups[0].vars.trace, [Passed(Start), Arrives(Med, Elevate), Locks(Low)])
    ensures Reachable(after, 1, -1) && |after.groups| == 1
            && EndsWith(after.groups[0].vars.trace, [Passed(Start), Locks(Low), Arrives(Med, Elevate)])
  {
    var g := ReachesStart();
    PassScene(g, Start);
    var h := PassStep(g, Start, Low);
    assert BehindStart(h);
    before := ArrivalFirst(h);
    after := LockFirst(h);
  }
}
