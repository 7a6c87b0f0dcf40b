/**
 The pi_stress inversion protocol: any number of groups of three threads (low, medium and
 high priority) and the main thread, synchronised by barriers, a mutex per group, a
 mutex-protected `loop` flag per group and one mutex-protected `shutdown` flag.

 A state is advanced by one Action at a time. A run is a sequence of actions, so a
 statement about every run covers every interleaving of the threads and every choice of
 the barrier's serial thread. A thread whose program counter is Call(b) is about to call
 pthread_barrier_wait(b), one at Wait(b) is inside the call; the barrier passes when as many
 threads are inside the call as the barrier was initialised for.
 */
module PiStress {

  datatype Option<+T> = None | Some(value: T)

  datatype Role = Low | Med | High

  datatype Barrier = Ready | Loop | Start | Locked | Elevate | Finish | Done

  /** Program counter of a group thread. */
  datatype Pc =
    | Call(barrier: Barrier)    // about to call pthread_barrier_wait
    | Wait(barrier: Barrier)    // inside the call
    | Top                       // compares `total` with `inversions`
    | SetLock(leaving: bool)    // set_shutdown_flag: locks shutdown_mtx
    | SetBody(leaving: bool)    // set_shutdown_flag: sets the flag and unlocks
    | LoopLock                  // locks loop_mtx
    | LoopRead                  // reads `loop` and unlocks loop_mtx
    | CheckLock                 // serial thread: locks shutdown_mtx
    | CheckRead                 // serial thread: reads `shutdown`
    | ClearLock                 // serial thread: locks loop_mtx inside shutdown_mtx
    | ClearBody                 // serial thread: clears `loop`, unlocks loop_mtx
    | CheckUnlock               // serial thread: unlocks shutdown_mtx
    | MutexLock
    | MutexUnlock
    | Bump                      // high thread: counts the round
    | Exited

  /** A thread and the history of the values of `loop` it has read. */
  datatype Thread = Thread(pc: Pc, seen: seq<bool>)

  /** What a group does in one round; recorded in the group's history. */
  datatype Event =
    | Arrives(role: Role, barrier: Barrier)
    | Passed(barrier: Barrier)
    | Locks(role: Role)
    | Unlocks(role: Role)

  /** The variables the three threads of a group share. */
  datatype Vars = Vars(
    loop: bool,
    loopOwner: Option<Role>,   // holder of loop_mtx
    mutexOwner: Option<Role>,  // holder of the priority-inheritance mutex
    total: nat,
    trace: seq<Event>)

  datatype Group = Group(low: Thread, med: Thread, high: Thread, vars: Vars)

  /** Where main is: the ready barrier, the reporter loop, the final flag setting, the done
      barrier. SetLock/SetBody carry the call site of set_shutdown_flag. */
  datatype MainPc =
    | MainWait(barrier: Barrier)
    | PollLock                   // reporter: locks shutdown_mtx to read the flag
    | PollBody
    | ReportLock                 // reporter: locks shutdown_mtx to print progress
    | ReportBody
    | Decide                     // reporter: the duration may have expired
    | MainSetLock(site: Site)
    | MainSetBody(site: Site)
    | MainExited

  datatype Site = Expired | ReporterEnd | MainEnd

  datatype Tid = Worker(group: nat, role: Role) | MainThread

  datatype State = State(
    groups: seq<Group>,
    main: MainPc,
    shutdown: bool,
    owner: Option<Tid>,    // holder of shutdown_mtx
    inversions: int)       // limit per group; negative means unbounded

  datatype Action =
    | Local(group: nat, role: Role)                     // one statement of a group thread
    | Pass(group: nat, barrier: Barrier, serial: Role)  // a group barrier passes
    | PassReady                                         // all_threads_ready passes
    | PassDone                                          // all_threads_done passes
    | MainStep(expired: bool)                           // one statement of main

  // ---------------------------------------------------------------- groups

  function ThreadOf(g: Group, r: Role): Thread {
    match r
    case Low => g.low
    case Med => g.med
    case High => g.high
  }

  function Put(g: Group, r: Role, t: Thread): Group {
    match r
    case Low => g.(low := t)
    case Med => g.(med := t)
    case High => g.(high := t)
  }

  function PcOf(g: Group, r: Role): Pc {
    ThreadOf(g, r).pc
  }

  function Record(x: Vars, e: Event): Vars {
    x.(trace := x.trace + [e])
  }

  /** Number of threads a group barrier is initialised for. */
  function Size(b: Barrier): nat {
    match b
    case Locked => 2
    case Elevate => 2
    case _ => 3
  }

  function Waiting(g: Group, b: Barrier): nat {
    (if g.low.pc == Wait(b) then 1 else 0)
    + (if g.med.pc == Wait(b) then 1 else 0)
    + (if g.high.pc == Wait(b) then 1 else 0)
  }

  /** The statement a thread reaches when it returns from a barrier. */
  function AfterBarrier(r: Role, b: Barrier, serial: bool): Pc {
    match b
    case Ready => Top
    case Loop => if serial then CheckLock else Call(Start)
    case Start =>
      (match r
       case Low => MutexLock
       case Med => Call(Elevate)
       case High => Call(Locked))
    case Locked => if r.Low? then Call(Elevate) else MutexLock
    case Elevate => if r.Low? then MutexUnlock else Call(Finish)
    case Finish => if r.High? then Bump else Top
    case Done => Exited
  }

  function Released(t: Thread, r: Role, b: Barrier, serial: Role): Thread {
    if t.pc == Wait(b) then t.(pc := AfterBarrier(r, b, r == serial)) else t
  }

  function ReleaseAll(g: Group, b: Barrier, serial: Role): Group {
    g.(low := Released(g.low, Low, b, serial),
       med := Released(g.med, Med, b, serial),
       high := Released(g.high, High, b, serial))
  }

  /** Everything a group thread shares with others. */
  datatype Shared = Shared(vars: Vars, shutdown: bool, owner: Option<Tid>)

  /** A thread is blocked only by a barrier or by a mutex somebody holds. */
  predicate ThreadEnabled(pc: Pc, m: Shared) {
    match pc
    case Wait(_) => false
    case Exited => false
    case SetLock(_) => m.owner.None?
    case CheckLock => m.owner.None?
    case LoopLock => m.vars.loopOwner.None?
    case ClearLock => m.vars.loopOwner.None?
    case MutexLock => m.vars.mutexOwner.None?
    case _ => true
  }

  datatype Moved = Moved(t: Thread, m: Shared)

  /** One statement of thread `r`, whose identity for shutdown_mtx is `me`. */
  function ThreadStep(t: Thread, m: Shared, r: Role, me: Tid, inversions: int): Moved {
    var x := m.vars;
    match t.pc
    case Wait(_) => Moved(t, m)
    case Call(b) => Moved(t.(pc := Wait(b)), m.(vars := Record(x, Arrives(r, b))))
    case Exited => Moved(t, m)
    case Top =>
      Moved(t.(pc := if inversions >= 0 && x.total >= inversions then SetLock(false) else LoopLock), m)
    case SetLock(leaving) =>
      Moved(t.(pc := SetBody(leaving)), m.(owner := Some(me)))
    case SetBody(leaving) =>
      Moved(t.(pc := if leaving then Call(Done) else LoopLock), m.(shutdown := true, owner := None))
    case LoopLock =>
      Moved(t.(pc := LoopRead), m.(vars := x.(loopOwner := Some(r))))
    case LoopRead =>
      Moved(Thread(if x.loop then Call(Loop) else SetLock(true), t.seen + [x.loop]),
            m.(vars := x.(loopOwner := None)))
    case CheckLock =>
      Moved(t.(pc := CheckRead), m.(owner := Some(me)))
    case CheckRead =>
      if m.shutdown then Moved(t.(pc := ClearLock), m)
      else Moved(t.(pc := Call(Start)), m.(owner := None))
    case ClearLock =>
      Moved(t.(pc := ClearBody), m.(vars := x.(loopOwner := Some(r))))
    case ClearBody =>
      Moved(t.(pc := CheckUnlock), m.(vars := x.(loop := false, loopOwner := None)))
    case CheckUnlock =>
      Moved(t.(pc := Call(Start)), m.(owner := None))
    case MutexLock =>
      Moved(t.(pc := if r.Low? then Call(Locked) else MutexUnlock),
            m.(vars := Record(x.(mutexOwner := Some(r)), Locks(r))))
    case MutexUnlock =>
      Moved(t.(pc := Call(Finish)),
            m.(vars := Record(x.(mutexOwner := None), Unlocks(r))))
    case Bump =>
      Moved(t.(pc := Top), m.(vars := x.(total := x.total + 1)))
  }

  predicate PassEnabled(g: Group, b: Barrier, serial: Role) {
    && !b.Ready? && !b.Done?
    && Waiting(g, b) == Size(b)
    && PcOf(g, serial) == Wait(b)
  }

  function PassStep(g: Group, b: Barrier, serial: Role): Group {
    ReleaseAll(g, b, serial).(vars := Record(g.vars, Passed(b)))
  }

  // ---------------------------------------------------------------- main

  predicate MainEnabled(s: State) {
    match s.main
    case MainWait(_) => false
    case MainExited => false
    case PollLock => s.owner.None?
    case ReportLock => s.owner.None?
    case MainSetLock(_) => s.owner.None?
    case _ => true
  }

  function AfterSite(site: Site): MainPc {
    match site
    case Expired => PollLock
    case ReporterEnd => MainSetLock(MainEnd)
    case MainEnd => MainWait(Done)
  }

  function MainApply(s: State, expired: bool): State {
    match s.main
    case MainWait(_) => s
    case MainExited => s
    case PollLock => s.(main := PollBody, owner := Some(MainThread))
    case PollBody => s.(main := if s.shutdown then MainSetLock(ReporterEnd) else ReportLock, owner := None)
    case ReportLock => s.(main := ReportBody, owner := Some(MainThread))
    case ReportBody => s.(main := Decide, owner := None)
    case Decide => s.(main := if expired then MainSetLock(Expired) else PollLock)
    case MainSetLock(site) => s.(main := MainSetBody(site), owner := Some(MainThread))
    case MainSetBody(site) => s.(main := AfterSite(site), shutdown := true, owner := None)
  }

  // ---------------------------------------------------------------- the whole system

  function SharedOf(s: State, g: nat): Shared
    requires g < |s.groups|
  {
    Shared(s.groups[g].vars, s.shutdown, s.owner)
  }

  function LocalApply(s: State, i: nat, r: Role): State
    requires i < |s.groups|
  {
    var g := s.groups[i];
    var n := ThreadStep(ThreadOf(g, r), SharedOf(s, i), r, Worker(i, r), s.inversions);
    s.(groups := s.groups[i := Put(g, r, n.t).(vars := n.m.vars)], shutdown := n.m.shutdown, owner := n.m.owner)
  }

  /** Threads of all groups inside the call pthread_barrier_wait(b). */
  function TotalWaiting(groups: seq<Group>, b: Barrier): nat {
    if groups == [] then 0 else Waiting(groups[0], b) + TotalWaiting(groups[1..], b)
  }

  /** The two global barriers are initialised for all group threads and main. */
  predicate GlobalPassEnabled(s: State, b: Barrier) {
    TotalWaiting(s.groups, b) + (if s.main == MainWait(b) then 1 else 0) == 3 * |s.groups| + 1
  }

  function ReleaseGroups(groups: seq<Group>, b: Barrier): seq<Group> {
    seq(|groups|, i requires 0 <= i < |groups| => ReleaseAll(groups[i], b, Low))
  }

  predicate Enabled(s: State, a: Action) {
    match a
    case Local(g, r) => g < |s.groups| && ThreadEnabled(PcOf(s.groups[g], r), SharedOf(s, g))
    case Pass(g, b, serial) => g < |s.groups| && PassEnabled(s.groups[g], b, serial)
    case PassReady => GlobalPassEnabled(s, Ready)
    case PassDone => GlobalPassEnabled(s, Done)
    case MainStep(_) => MainEnabled(s)
  }

  function Apply(s: State, a: Action): State
    requires Enabled(s, a)
  {
    match a
    case Local(g, r) => LocalApply(s, g, r)
    case Pass(g, b, serial) => s.(groups := s.groups[g := PassStep(s.groups[g], b, serial)])
    case PassReady => s.(groups := ReleaseGroups(s.groups, Ready), main := PollLock)
    case PassDone => s.(groups := ReleaseGroups(s.groups, Done), main := MainExited)
    case MainStep(expired) => MainApply(s, expired)
  }

  const FRESH_THREAD := Thread(Call(Ready), [])

  const FRESH_GROUP := Group(FRESH_THREAD, FRESH_THREAD, FRESH_THREAD, Vars(true, None, None, 0, []))

  function Init(ngroups: nat, inversions: int): State {
    State(seq(ngroups, _ => FRESH_GROUP), MainWait(Ready), false, None, inversions)
  }

  /** A run: every action is enabled in the state the previous ones lead to. */
  predicate IsRun(s: State, actions: seq<Action>)
    decreases |actions|
  {
    actions == [] || (Enabled(s, actions[0]) && IsRun(Apply(s, actions[0]), actions[1..]))
  }

  function RunEnd(s: State, actions: seq<Action>): State
    requires IsRun(s, actions)
    decreases |actions|
  {
    if actions == [] then s else RunEnd(Apply(s, actions[0]), actions[1..])
  }

  predicate AllExited(s: State) {
    && s.main.MainExited?
    && forall g :: 0 <= g < |s.groups| ==>
         forall r :: PcOf(s.groups[g], r).Exited?
  }
}
