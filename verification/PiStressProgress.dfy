/**
 Order, limit, freedom from deadlock and termination of the pi_stress protocol, for every
 number of groups and every run.
 */
module PiStressProgress {
  import opened PiStress
  import opened PiStressInvariant
  import opened PiStressSystem

  /** In every run the events of a group other than arrivals are complete rounds followed by a
      beginning of one: low locks, then the locked and elevate barriers pass, then low unlocks,
      and only then high locks. `total` counts the completed rounds, and a limit is overrun by
      at most one. */
  lemma RoundOrder(s: State, ngroups: nat, inversions: int, i: nat)
    requires Reachable(s, ngroups, inversions) && i < ngroups
    ensures i < |s.groups|
    ensures exists completed: nat, position: nat ::
              && position < |ROUND|
              && Ordered(s.groups[i].vars.trace) == Rounds(completed) + ROUND[..position]
              && completed == s.groups[i].vars.total + (if s.groups[i].high.pc == Bump then 1 else 0)
    ensures inversions >= 0 ==> s.groups[i].vars.total <= inversions + 1
  {
    ReachableInv(s, ngroups, inversions);
    var g := s.groups[i];
    var completed, position := Completed(g), Position(g, StageOf(g));
    assert Ordered(g.vars.trace) == Rounds(completed) + ROUND[..position] && position < |ROUND|;
  }

  /** The elevate barrier passes only while low holds the mutex and high is waiting for it. */
  lemma ElevateUnderLock(s: State, ngroups: nat, inversions: int, i: nat, serial: Role)
    requires Reachable(s, ngroups, inversions) && Enabled(s, Pass(i, Elevate, serial))
    ensures s.groups[i].vars.mutexOwner == Some(Low) && s.groups[i].high.pc == MutexLock
    ensures s.groups[i].low.pc == Wait(Elevate) && s.groups[i].med.pc == Wait(Elevate)
  {
    ReachableInv(s, ngroups, inversions);
    assert GroupOk(s.groups[i], SharedOf(s, i), i, s.inversions);
    PassStage(s.groups[i], Elevate, serial, s.shutdown);
  }

  // ---------------------------------------------------------------- no deadlock

  /** Main starting one more round of its reporter loop while nobody asks for the end. */
  predicate Idle(s: State, a: Action) {
    a.MainStep? && s.main == PollLock && !s.shutdown
  }

  predicate Productive(s: State, a: Action) {
    Enabled(s, a) && !Idle(s, a)
  }

  /** The action is one of the thread that holds shutdown_mtx. */
  predicate OfOwner(s: State, a: Action) {
    match a
    case Local(i, r) => s.owner == Some(Worker(i, r))
    case MainStep(_) => s.owner == Some(MainThread)
    case _ => false
  }

  /** The holder of shutdown_mtx can always go on, also when it needs loop_mtx as well. */
  lemma OwnerMoves(s: State) returns (a: Action)
    requires Inv(s) && s.owner != None
    ensures Productive(s, a) && OfOwner(s, a)
  {
    match s.owner.value
    case MainThread => a := MainStep(false);
    case Worker(i, r) =>
      a := Local(i, r);
      assert GroupOk(s.groups[i], SharedOf(s, i), i, s.inversions);
      HolderEnabled(s.groups[i], SharedOf(s, i), i, r);
  }

  lemma HeldByNone(owner: Option<Role>)
    requires owner != Some(Low) && owner != Some(Med) && owner != Some(High)
    ensures owner == None
  {
    if owner.Some? {
      match owner.value
      case Low => assert false;
      case Med => assert false;
      case High => assert false;
    }
  }

  /** Only the serial thread checks, so it gets loop_mtx when it wants it. */
  lemma ClearLockFree(g: Group, m: Shared, i: nat, r: Role)
    requires m.vars == g.vars && MutexesOk(g, m, i) && CheckingOk(g, m.shutdown) && PcOf(g, r) == ClearLock
    ensures m.vars.loopOwner == None
  {
    assert !HoldsLoop(g.low.pc) && !HoldsLoop(g.med.pc) && !HoldsLoop(g.high.pc);
    HeldByNone(m.vars.loopOwner);
  }

  lemma ClearLockChecks(g: Group, shutdown: bool, r: Role)
    requires StageOk(g, StageOf(g), shutdown) && PcOf(g, r) == ClearLock
    ensures StageOf(g) == Checking
  {
  }

  lemma HolderEnabled(g: Group, m: Shared, i: nat, r: Role)
    requires m.vars == g.vars && MutexesOk(g, m, i) && StageOk(g, StageOf(g), m.shutdown) && m.owner == Some(Worker(i, r))
    ensures ThreadEnabled(PcOf(g, r), m)
  {
    assert HoldsShutdown(PcOf(g, r));
    if PcOf(g, r) == ClearLock {
      ClearLockChecks(g, m.shutdown, r);
      ClearLockFree(g, m, i, r);
    }
  }

  /** All threads of the group are inside one of the two global barriers, or behind both. */
  predicate AtGlobalBarrier(g: Group) {
    AllAt(g, Wait(Ready)) || AllAt(g, Wait(Done)) || StageOf(g) == Gone
  }

  predicate NobodyArriving(g: Group) {
    !g.low.pc.Call? && !g.med.pc.Call? && !g.high.pc.Call?
  }

  /** An action of a thread or a barrier of group i that is possible. */
  predicate GroupCan(g: Group, m: Shared, i: nat, a: Action) {
    || (a.Local? && a.group == i && ThreadEnabled(PcOf(g, a.role), m))
    || (a.Pass? && a.group == i && PassEnabled(g, a.barrier, a.serial))
  }

  /** A group that is not wholly at a global barrier has a step to take. */
  lemma GroupMoves(g: Group, m: Shared, i: nat, inversions: int) returns (a: Action)
    requires GroupOk(g, m, i, inversions) && m.owner == None && !AtGlobalBarrier(g)
    ensures GroupCan(g, m, i, a)
  {
    if g.low.pc.Call? {
      a := Local(i, Low);
    } else if g.med.pc.Call? {
      a := Local(i, Med);
    } else if g.high.pc.Call? {
      a := Local(i, High);
    } else {
      match StageOf(g)
      case Between => a := BetweenMoves(g, m, i);
      case Checking => a := CheckingMoves(g, m, i);
      case Inverting => a := InvertingMoves(g, m, i);
    }
  }

  lemma BetweenMoves(g: Group, m: Shared, i: nat) returns (a: Action)
    requires m.vars == g.vars && BetweenOk(g) && MutexesOk(g, m, i) && m.owner == None && !AllAt(g, Wait(Done))
    requires NobodyArriving(g)
    ensures a == Pass(i, Loop, Low) || (a.Local? && a.group == i)
    ensures a.Local? ==> ThreadEnabled(PcOf(g, a.role), m)
    ensures a.Pass? ==> PassEnabled(g, Loop, Low)
  {
    if m.vars.loopOwner != None {
      a := Local(i, m.vars.loopOwner.value);
    } else if !g.low.pc.Wait? {
      a := Local(i, Low);
    } else if !g.med.pc.Wait? {
      a := Local(i, Med);
    } else if !g.high.pc.Wait? {
      a := Local(i, High);
    } else {
      a := Pass(i, Loop, Low);
    }
  }

  lemma CheckingMoves(g: Group, m: Shared, i: nat) returns (a: Action)
    requires m.vars == g.vars && CheckingOk(g, m.shutdown) && MutexesOk(g, m, i) && m.owner == None && NobodyArriving(g)
    ensures a == Pass(i, Start, Low) || (a.Local? && a.group == i)
    ensures a.Local? ==> ThreadEnabled(PcOf(g, a.role), m)
    ensures a.Pass? ==> PassEnabled(g, Start, Low)
  {
    if CheckPc(g.low.pc) {
      a := Local(i, Low);
    } else if CheckPc(g.med.pc) {
      a := Local(i, Med);
    } else if CheckPc(g.high.pc) {
      a := Local(i, High);
    } else {
      a := Pass(i, Start, Low);
    }
  }

  lemma InvertingMoves(g: Group, m: Shared, i: nat) returns (a: Action)
    requires m.vars == g.vars && InversionOk(g) && NobodyArriving(g)
    ensures (a.Local? || a.Pass?) && a.group == i
    ensures a.Local? ==> ThreadEnabled(PcOf(g, a.role), m)
    ensures a.Pass? ==> PassEnabled(g, a.barrier, a.serial)
  {
    match g.low.pc
    case MutexLock => a := Local(i, Low);
    case MutexUnlock => a := Local(i, Low);
    case Wait(b) =>
      if b == Finish && g.high.pc != Wait(Finish) {
        a := Local(i, High);
      } else {
        a := Pass(i, b, Low);
      }
  }

  /** No group is ever stuck: unless all its threads are at a global barrier, a thread or a
      barrier of the group can take a step, or somebody holds shutdown_mtx and can go on. */
  lemma NoGroupStuck(s: State, ngroups: nat, inversions: int, i: nat)
    requires Reachable(s, ngroups, inversions) && i < ngroups
    ensures i < |s.groups|
    ensures AtGlobalBarrier(s.groups[i]) || (exists a :: GroupCan(s.groups[i], SharedOf(s, i), i, a) && Enabled(s, a))
            || (s.owner != None && exists a :: Productive(s, a) && OfOwner(s, a))
  {
    ReachableInv(s, ngroups, inversions);
    assert GroupOk(s.groups[i], SharedOf(s, i), i, s.inversions);
    if s.owner != None {
      var a := OwnerMoves(s);
    } else if !AtGlobalBarrier(s.groups[i]) {
      var a := GroupMoves(s.groups[i], SharedOf(s, i), i, s.inversions);
      assert Enabled(s, a);
    }
  }

  /** No reachable state before everybody has left all_threads_done is stuck: some thread can
      take a step other than main's idle polling. Without any group, main merely polls until
      the duration expires. */
  lemma NoDeadlock(s: State, ngroups: nat, inversions: int)
    requires Reachable(s, ngroups, inversions) && !AllExited(s)
    ensures (exists a :: Productive(s, a)) || (ngroups == 0 && s.main == PollLock && !s.shutdown)
  {
    ReachableInv(s, ngroups, inversions);
    var _ := InvMoves(s);
  }

  lemma MainExitedLast(s: State)
    requires Inv(s) && s.main == MainExited
    ensures AllExited(s)
  {
    forall i, r: Role | 0 <= i < |s.groups| ensures PcOf(s.groups[i], r).Exited? {
      assert GroupOk(s.groups[i], SharedOf(s, i), i, s.inversions);
    }
  }

  lemma EndMoves(s: State) returns (a: Action)
    requires Inv(s) && s.main != MainExited && s.main != MainWait(Ready) && s.owner == None
    requires forall i :: 0 <= i < |s.groups| ==> AllAt(s.groups[i], Wait(Done))
    ensures Productive(s, a) || (|s.groups| == 0 && s.main == PollLock && !s.shutdown)
  {
    if s.main == MainWait(Done) {
      EverybodyWaits(s.groups, Done);
      a := PassDone;
    } else {
      a := MainStep(false);
      if |s.groups| > 0 {
        assert GroupOk(s.groups[0], SharedOf(s, 0), 0, s.inversions);
      }
    }
  }

  lemma StartMoves(s: State)
    requires s.main == MainWait(Ready) && forall i :: 0 <= i < |s.groups| ==> AllAt(s.groups[i], Wait(Ready))
    ensures Productive(s, PassReady)
  {
    EverybodyWaits(s.groups, Ready);
  }

  /** Which global barrier a group waits at is decided by where main is. */
  lemma WhichBarrier(s: State, i: nat)
    requires Inv(s) && i < |s.groups| && AtGlobalBarrier(s.groups[i]) && s.main != MainExited
    ensures AllAt(s.groups[i], Wait(if s.main == MainWait(Ready) then Ready else Done))
  {
    assert GroupOk(s.groups[i], SharedOf(s, i), i, s.inversions);
  }

  lemma InvMoves(s: State) returns (a: Action)
    requires Inv(s) && !AllExited(s)
    ensures Productive(s, a) || (|s.groups| == 0 && s.main == PollLock && !s.shutdown)
  {
    if s.main == MainExited {
      MainExitedLast(s);
    }
    if s.owner != None {
      a := OwnerMoves(s);
    } else if i: nat :| i < |s.groups| && !AtGlobalBarrier(s.groups[i]) {
      assert GroupOk(s.groups[i], SharedOf(s, i), i, s.inversions);
      a := GroupMoves(s.groups[i], SharedOf(s, i), i, s.inversions);
    } else {
      forall i | 0 <= i < |s.groups| ensures AllAt(s.groups[i], Wait(if s.main == MainWait(Ready) then Ready else Done)) {
        WhichBarrier(s, i);
      }
      if s.main == MainWait(Ready) {
        StartMoves(s);
        a := PassReady;
      } else {
        a := EndMoves(s);
      }
    }
  }
}
