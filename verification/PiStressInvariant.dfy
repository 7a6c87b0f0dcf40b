/**
 What every step of the pi_stress protocol keeps. The three threads of a group are always
 in the same stage of a round; inside the stage guarded by the mutex only seven
 configurations occur, one after the other. The histories of a group are functions of the
 number of rounds it has completed and of the configuration it is in.
 */
module PiStressInvariant {
  import opened PiStress

  /** About to call a barrier or inside the call. */
  predicate At(pc: Pc, b: Barrier) {
    pc == Call(b) || pc == Wait(b)
  }

  /** Between the end of one round and the loop barrier of the next. */
  predicate PrePc(r: Role, pc: Pc) {
    || pc == Top || pc == SetLock(false) || pc == SetBody(false)
    || pc == LoopLock || pc == LoopRead || At(pc, Loop)
    || (r == High && pc == Bump)
  }

  /** After a thread has left its loop. */
  predicate LeavingPc(pc: Pc) {
    pc == SetLock(true) || pc == SetBody(true) || At(pc, Done)
  }

  /** The serial thread's inspection of the shutdown flag. */
  predicate CheckPc(pc: Pc) {
    pc == CheckLock || pc == CheckRead || pc == ClearLock || pc == ClearBody || pc == CheckUnlock
  }

  predicate HoldsShutdown(pc: Pc) {
    pc.SetBody? || pc == CheckRead || pc == ClearLock || pc == ClearBody || pc == CheckUnlock
  }

  predicate HoldsLoop(pc: Pc) {
    pc == LoopRead || pc == ClearBody
  }

  datatype Stage = Fresh | Between | Checking | Inverting | Gone

  /** The events of one round, in the only order they can happen. */
  const ROUND: seq<Event> := [
    Passed(Loop), Passed(Start), Locks(Low), Passed(Locked), Passed(Elevate),
    Unlocks(Low), Locks(High), Unlocks(High), Passed(Finish)]

  function Rounds(n: nat): seq<Event> {
    if n == 0 then [] else Rounds(n - 1) + ROUND
  }

  function Trues(n: nat): seq<bool> {
    seq(n, _ => true)
  }

  /** Rounds whose finish barrier has passed. */
  function Completed(g: Group): nat {
    g.vars.total + if g.high.pc == Bump then 1 else 0
  }

  /** Number of events of the current round that have happened. */
  function Position(g: Group, stage: Stage): nat {
    match stage
    case Checking => 1
    case Inverting =>
      (if g.low.pc == MutexLock then 2
       else if At(g.low.pc, Locked) then 3
       else if At(g.low.pc, Elevate) then 4
       else if g.low.pc == MutexUnlock then 5
       else if g.high.pc == MutexLock then 6
       else if g.high.pc == MutexUnlock then 7
       else 8)
    case _ => 0
  }

  /** The values of `loop` a thread must have read by now. */
  function ExpectedSeen(pc: Pc, stage: Stage, completed: nat, loop: bool): seq<bool> {
    match stage
    case Fresh => []
    case Between => if At(pc, Loop) || LeavingPc(pc) then Trues(completed) + [loop] else Trues(completed)
    case Gone => Trues(completed) + [false]
    case _ => Trues(completed + 1)
  }

  /** The seven configurations of the inversion itself. */
  predicate InversionOk(g: Group) {
    var low, med, high, owner := g.low.pc, g.med.pc, g.high.pc, g.vars.mutexOwner;
    || (low == MutexLock && At(med, Elevate) && At(high, Locked) && owner == None)
    || (At(low, Locked) && At(med, Elevate) && At(high, Locked) && owner == Some(Low))
    || (At(low, Elevate) && At(med, Elevate) && high == MutexLock && owner == Some(Low))
    || (low == MutexUnlock && At(med, Finish) && high == MutexLock && owner == Some(Low))
    || (At(low, Finish) && At(med, Finish) && high == MutexLock && owner == None)
    || (At(low, Finish) && At(med, Finish) && high == MutexUnlock && owner == Some(High))
    || (At(low, Finish) && At(med, Finish) && At(high, Finish) && owner == None)
  }

  predicate BetweenPc(r: Role, pc: Pc, loop: bool) {
    && (PrePc(r, pc) || LeavingPc(pc))
    && (LeavingPc(pc) ==> !loop)
    && (At(pc, Loop) ==> loop)
  }

  predicate BetweenOk(g: Group) {
    && g.vars.mutexOwner == None
    && BetweenPc(Low, g.low.pc, g.vars.loop)
    && BetweenPc(Med, g.med.pc, g.vars.loop)
    && BetweenPc(High, g.high.pc, g.vars.loop)
  }

  predicate CheckingPc(pc: Pc, loop: bool, shutdown: bool) {
    && (CheckPc(pc) || At(pc, Start))
    && (CheckPc(pc) ==> loop == (pc != CheckUnlock))
    && (pc == ClearLock || pc == ClearBody ==> shutdown)
  }

  predicate AtMostOneChecks(g: Group) {
    && !(CheckPc(g.low.pc) && CheckPc(g.med.pc))
    && !(CheckPc(g.low.pc) && CheckPc(g.high.pc))
    && !(CheckPc(g.med.pc) && CheckPc(g.high.pc))
  }

  predicate CheckingOk(g: Group, shutdown: bool) {
    && g.vars.mutexOwner == None && AtMostOneChecks(g)
    && CheckingPc(g.low.pc, g.vars.loop, shutdown)
    && CheckingPc(g.med.pc, g.vars.loop, shutdown)
    && CheckingPc(g.high.pc, g.vars.loop, shutdown)
  }

  predicate AllNear(g: Group, b: Barrier) {
    At(g.low.pc, b) && At(g.med.pc, b) && At(g.high.pc, b)
  }

  predicate AllAt(g: Group, pc: Pc) {
    g.low.pc == pc && g.med.pc == pc && g.high.pc == pc
  }

  predicate StageOk(g: Group, stage: Stage, shutdown: bool) {
    match stage
    case Fresh => AllNear(g, Ready) && g.vars.mutexOwner == None && g.vars.loop && g.vars.total == 0
    case Between => BetweenOk(g)
    case Checking => CheckingOk(g, shutdown)
    case Inverting => InversionOk(g)
    case Gone => AllAt(g, Exited) && g.vars.mutexOwner == None && !g.vars.loop
  }

  predicate CheckPending(pc: Pc) {
    CheckPc(pc) && pc != CheckUnlock
  }

  /** The serial thread has still to finish its inspection. */
  predicate Pending(g: Group) {
    CheckPending(g.low.pc) || CheckPending(g.med.pc) || CheckPending(g.high.pc)
  }

  /** How the limit on the number of inversions takes effect. */
  predicate LimitOk(g: Group, stage: Stage, shutdown: bool, inversions: int) {
    inversions >= 0 ==>
      match stage
      case Checking =>
        && g.vars.total <= inversions
        && (g.vars.total == inversions ==> shutdown && (Pending(g) || !g.vars.loop))
      case Inverting =>
        && g.vars.total <= inversions
        && (g.vars.total == inversions ==> !g.vars.loop)
      case _ =>
        && Completed(g) <= inversions + 1
        && (Completed(g) == inversions + 1 ==> !g.vars.loop)
        && (g.vars.total == inversions && (g.high.pc == LoopLock || g.high.pc == LoopRead || At(g.high.pc, Loop))
            ==> shutdown)
  }

  predicate HoldsOk(pc: Pc, m: Shared, r: Role, me: Tid) {
    && (m.owner == Some(me) <==> HoldsShutdown(pc))
    && (m.vars.loopOwner == Some(r) <==> HoldsLoop(pc))
  }

  predicate MutexesOk(g: Group, m: Shared, i: nat) {
    && HoldsOk(g.low.pc, m, Low, Worker(i, Low))
    && HoldsOk(g.med.pc, m, Med, Worker(i, Med))
    && HoldsOk(g.high.pc, m, High, Worker(i, High))
  }

  predicate SeenOk(g: Group, stage: Stage) {
    && g.low.seen == ExpectedSeen(g.low.pc, stage, Completed(g), g.vars.loop)
    && g.med.seen == ExpectedSeen(g.med.pc, stage, Completed(g), g.vars.loop)
    && g.high.seen == ExpectedSeen(g.high.pc, stage, Completed(g), g.vars.loop)
  }

  /** The events other than arrivals. */
  function Ordered(trace: seq<Event>): seq<Event> {
    if trace == [] then []
    else Ordered(trace[..|trace| - 1]) + if trace[|trace| - 1].Arrives? then [] else [trace[|trace| - 1]]
  }

  lemma OrderedSnoc(trace: seq<Event>, e: Event)
    ensures Ordered(trace + [e]) == Ordered(trace) + if e.Arrives? then [] else [e]
  {
    assert (trace + [e])[..|trace|] == trace;
  }

  predicate TraceOk(g: Group, stage: Stage) {
    Ordered(g.vars.trace) == Rounds(Completed(g)) + ROUND[..Position(g, stage)]
  }

  // ---------------------------------------------------------------- steps of one thread

  lemma StepKeepsHolds(t: Thread, m: Shared, r: Role, me: Tid, inversions: int)
    requires HoldsOk(t.pc, m, r, me) && ThreadEnabled(t.pc, m)
    ensures var n := ThreadStep(t, m, r, me, inversions); HoldsOk(n.t.pc, n.m, r, me)
  {
  }

  /** The step of one thread neither takes nor frees a mutex another thread holds. */
  lemma StepKeepsOthersHolds(t: Thread, m: Shared, r: Role, me: Tid, inversions: int, q: Role, pc: Pc, you: Tid)
    requires HoldsOk(t.pc, m, r, me) && ThreadEnabled(t.pc, m)
    requires HoldsOk(pc, m, q, you) && q != r && you != me
    ensures var n := ThreadStep(t, m, r, me, inversions); HoldsOk(pc, n.m, q, you)
  {
  }

  lemma BetweenStep(t: Thread, m: Shared, r: Role, me: Tid, inversions: int)
    requires BetweenPc(r, t.pc, m.vars.loop) && ThreadEnabled(t.pc, m) && !t.pc.Call?
    ensures var n := ThreadStep(t, m, r, me, inversions);
            && BetweenPc(r, n.t.pc, m.vars.loop)
            && n.m.vars.loop == m.vars.loop && n.m.vars.mutexOwner == m.vars.mutexOwner
            && n.m.vars.trace == m.vars.trace
            && (m.shutdown ==> n.m.shutdown) && n.t.pc != Bump
            && n.m.vars.total == m.vars.total + if t.pc == Bump then 1 else 0
  {
  }

  lemma BetweenStepSeen(t: Thread, m: Shared, r: Role, me: Tid, inversions: int, completed: nat)
    requires BetweenPc(r, t.pc, m.vars.loop) && ThreadEnabled(t.pc, m) && !t.pc.Call?
    requires t.seen == ExpectedSeen(t.pc, Between, completed, m.vars.loop)
    ensures var n := ThreadStep(t, m, r, me, inversions);
            n.t.seen == ExpectedSeen(n.t.pc, Between, completed, m.vars.loop)
  {
  }

  lemma CheckingStep(t: Thread, m: Shared, r: Role, me: Tid, inversions: int)
    requires CheckingPc(t.pc, m.vars.loop, m.shutdown) && ThreadEnabled(t.pc, m) && !t.pc.Call?
    ensures var n := ThreadStep(t, m, r, me, inversions);
            && CheckPc(t.pc) && CheckingPc(n.t.pc, n.m.vars.loop, m.shutdown)
            && n.m.vars.mutexOwner == m.vars.mutexOwner && n.m.vars.trace == m.vars.trace
            && n.m.shutdown == m.shutdown && n.m.vars.total == m.vars.total && n.t.seen == t.seen
            && (n.m.vars.loop == m.vars.loop || (t.pc == ClearBody && !n.m.vars.loop))
  {
  }

  /** Only four statements are possible while the inversion runs, arrivals aside. */
  lemma InvertingStep(g: Group, m: Shared, r: Role, me: Tid, inversions: int)
    requires InversionOk(g) && m.vars == g.vars && ThreadEnabled(PcOf(g, r), m) && !PcOf(g, r).Call?
    ensures var n := ThreadStep(ThreadOf(g, r), m, r, me, inversions);
            var g' := Put(g, r, n.t).(vars := n.m.vars);
            && InversionOk(g')
            && Position(g', Inverting) == Position(g, Inverting) + 1
            && Position(g, Inverting) < 8 && !ROUND[Position(g, Inverting)].Arrives?
            && g'.vars.trace == g.vars.trace + [ROUND[Position(g, Inverting)]]
            && g'.vars.loop == g.vars.loop && g'.vars.total == g.vars.total
            && n.t.seen == ThreadOf(g, r).seen && n.m.shutdown == m.shutdown
  {
  }

  // ---------------------------------------------------------------- steps of one group

  function StageOf(g: Group): Stage {
    var pc := g.low.pc;
    if At(pc, Ready) then Fresh
    else if PrePc(Low, pc) || LeavingPc(pc) then Between
    else if CheckPc(pc) || At(pc, Start) then Checking
    else if pc == Exited then Gone
    else Inverting
  }

  predicate GroupAt(g: Group, stage: Stage, m: Shared, i: nat, inversions: int) {
    && StageOk(g, stage, m.shutdown)
    && (!g.vars.loop ==> m.shutdown)
    && MutexesOk(g, m, i)
    && LimitOk(g, stage, m.shutdown, inversions)
    && SeenOk(g, stage)
    && TraceOk(g, stage)
  }

  predicate GroupOk(g: Group, m: Shared, i: nat, inversions: int) {
    m.vars == g.vars && GroupAt(g, StageOf(g), m, i, inversions)
  }

  function GroupStep(g: Group, m: Shared, r: Role, i: nat, inversions: int): (Group, Shared) {
    var n := ThreadStep(ThreadOf(g, r), m, r, Worker(i, r), inversions);
    (Put(g, r, n.t).(vars := n.m.vars), n.m)
  }

  lemma StepKeepsMutexes(g: Group, m: Shared, r: Role, i: nat, inversions: int)
    requires MutexesOk(g, m, i) && ThreadEnabled(PcOf(g, r), m)
    ensures var (g', m') := GroupStep(g, m, r, i, inversions); MutexesOk(g', m', i)
  {
    var t := ThreadOf(g, r);
    StepKeepsHolds(t, m, r, Worker(i, r), inversions);
    forall q: Role | q != r
      ensures HoldsOk(PcOf(g, q), ThreadStep(t, m, r, Worker(i, r), inversions).m, q, Worker(i, q))
    {
      StepKeepsOthersHolds(t, m, r, Worker(i, r), inversions, q, PcOf(g, q), Worker(i, q));
    }
  }

  lemma BetweenKeepsLimit(g: Group, m: Shared, r: Role, i: nat, inversions: int)
    requires m.vars == g.vars && BetweenOk(g) && ThreadEnabled(PcOf(g, r), m) && !PcOf(g, r).Call?
    requires LimitOk(g, Between, m.shutdown, inversions)
    ensures var (g', m') := GroupStep(g, m, r, i, inversions);
            Completed(g') == Completed(g) && LimitOk(g', Between, m'.shutdown, inversions)
  {
    BetweenStep(ThreadOf(g, r), m, r, Worker(i, r), inversions);
  }

  lemma BetweenKeepsSeen(g: Group, m: Shared, r: Role, i: nat, inversions: int)
    requires m.vars == g.vars && BetweenOk(g) && ThreadEnabled(PcOf(g, r), m) && !PcOf(g, r).Call?
    requires SeenOk(g, Between)
    ensures var (g', m') := GroupStep(g, m, r, i, inversions);
            Completed(g') == Completed(g) ==> SeenOk(g', Between)
  {
    BetweenStep(ThreadOf(g, r), m, r, Worker(i, r), inversions);
    BetweenStepSeen(ThreadOf(g, r), m, r, Worker(i, r), inversions, Completed(g));
  }

  lemma BetweenKeeps(g: Group, m: Shared, r: Role, i: nat, inversions: int)
    requires m.vars == g.vars && GroupAt(g, Between, m, i, inversions) && ThreadEnabled(PcOf(g, r), m) && !PcOf(g, r).Call?
    ensures var (g', m') := GroupStep(g, m, r, i, inversions); GroupAt(g', Between, m', i, inversions)
  {
    StepKeepsMutexes(g, m, r, i, inversions);
    BetweenStep(ThreadOf(g, r), m, r, Worker(i, r), inversions);
    BetweenKeepsLimit(g, m, r, i, inversions);
    BetweenKeepsSeen(g, m, r, i, inversions);
  }

  lemma CheckingKeepsRest(g: Group, m: Shared, r: Role, i: nat, inversions: int)
    requires m.vars == g.vars && CheckingOk(g, m.shutdown) && ThreadEnabled(PcOf(g, r), m) && !PcOf(g, r).Call?
    requires LimitOk(g, Checking, m.shutdown, inversions) && SeenOk(g, Checking) && TraceOk(g, Checking)
    ensures var (g', m') := GroupStep(g, m, r, i, inversions);
            LimitOk(g', Checking, m'.shutdown, inversions) && SeenOk(g', Checking) && TraceOk(g', Checking)
  {
    CheckingStep(ThreadOf(g, r), m, r, Worker(i, r), inversions);
  }

  lemma CheckingKeepsStage(g: Group, m: Shared, r: Role, i: nat, inversions: int)
    requires m.vars == g.vars && CheckingOk(g, m.shutdown) && ThreadEnabled(PcOf(g, r), m) && !PcOf(g, r).Call?
    requires !g.vars.loop ==> m.shutdown
    ensures var (g', m') := GroupStep(g, m, r, i, inversions);
            CheckingOk(g', m'.shutdown) && (!g'.vars.loop ==> m'.shutdown)
  {
    CheckingStep(ThreadOf(g, r), m, r, Worker(i, r), inversions);
  }

  lemma CheckingKeeps(g: Group, m: Shared, r: Role, i: nat, inversions: int)
    requires m.vars == g.vars && GroupAt(g, Checking, m, i, inversions) && ThreadEnabled(PcOf(g, r), m) && !PcOf(g, r).Call?
    ensures var (g', m') := GroupStep(g, m, r, i, inversions); GroupAt(g', Checking, m', i, inversions)
  {
    StepKeepsMutexes(g, m, r, i, inversions);
    CheckingKeepsStage(g, m, r, i, inversions);
    CheckingKeepsRest(g, m, r, i, inversions);
  }

  /** One more event of the round, and nothing else the group remembers changed. */
  predicate NextEvent(g: Group, g': Group) {
    && InversionOk(g') && Position(g', Inverting) == Position(g, Inverting) + 1 <= 8
    && !ROUND[Position(g, Inverting)].Arrives?
    && g'.vars.trace == g.vars.trace + [ROUND[Position(g, Inverting)]]
    && g'.vars.loop == g.vars.loop && g'.vars.total == g.vars.total
    && g'.low.seen == g.low.seen && g'.med.seen == g.med.seen && g'.high.seen == g.high.seen
  }

  lemma NextEventTrace(g: Group, g': Group)
    requires InversionOk(g) && TraceOk(g, Inverting) && NextEvent(g, g')
    ensures TraceOk(g', Inverting)
  {
    var p := Position(g, Inverting);
    OrderedSnoc(g.vars.trace, ROUND[p]);
    assert ROUND[..p] + [ROUND[p]] == ROUND[..p + 1];
  }

  lemma NextEventKeeps(g: Group, g': Group, shutdown: bool, inversions: int)
    requires InversionOk(g) && NextEvent(g, g') && LimitOk(g, Inverting, shutdown, inversions) && SeenOk(g, Inverting)
    ensures LimitOk(g', Inverting, shutdown, inversions) && SeenOk(g', Inverting)
  {
  }

  lemma InvertingKeeps(g: Group, m: Shared, r: Role, i: nat, inversions: int)
    requires m.vars == g.vars && GroupAt(g, Inverting, m, i, inversions) && ThreadEnabled(PcOf(g, r), m) && !PcOf(g, r).Call?
    ensures var (g', m') := GroupStep(g, m, r, i, inversions); GroupAt(g', Inverting, m', i, inversions)
  {
    var (g', m') := GroupStep(g, m, r, i, inversions);
    assert MutexesOk(g', m', i) by { StepKeepsMutexes(g, m, r, i, inversions); }
    assert NextEvent(g, g') && m'.shutdown == m.shutdown by { InvertingStep(g, m, r, Worker(i, r), inversions); }
    NextEventTrace(g, g');
    NextEventKeeps(g, g', m.shutdown, inversions);
  }

  /** An arrival changes nothing but where in the call the thread is, and the trace. */
  function Arrived(g: Group, r: Role, b: Barrier): Group {
    Put(g, r, ThreadOf(g, r).(pc := Wait(b))).(vars := Record(g.vars, Arrives(r, b)))
  }

  lemma ArrivalKeepsStage(g: Group, r: Role, b: Barrier, stage: Stage, shutdown: bool)
    requires PcOf(g, r) == Call(b) && StageOk(g, stage, shutdown)
    ensures StageOk(Arrived(g, r, b), stage, shutdown)
  {
  }

  lemma ArrivalKeepsLimit(g: Group, r: Role, b: Barrier, stage: Stage, shutdown: bool, inversions: int)
    requires PcOf(g, r) == Call(b) && LimitOk(g, stage, shutdown, inversions)
    ensures LimitOk(Arrived(g, r, b), stage, shutdown, inversions)
  {
  }

  lemma ArrivalKeepsSeen(g: Group, r: Role, b: Barrier, stage: Stage)
    requires PcOf(g, r) == Call(b) && SeenOk(g, stage)
    ensures SeenOk(Arrived(g, r, b), stage)
  {
  }

  lemma ArrivalKeepsTrace(g: Group, r: Role, b: Barrier, stage: Stage)
    requires PcOf(g, r) == Call(b) && TraceOk(g, stage)
    ensures TraceOk(Arrived(g, r, b), stage)
  {
    OrderedSnoc(g.vars.trace, Arrives(r, b));
  }

  lemma ArrivalKeeps(g: Group, m: Shared, r: Role, i: nat, stage: Stage, inversions: int)
    requires m.vars == g.vars && GroupAt(g, stage, m, i, inversions) && PcOf(g, r).Call?
    ensures var (g', m') := GroupStep(g, m, r, i, inversions); GroupAt(g', stage, m', i, inversions)
  {
    var b := PcOf(g, r).barrier;
    StepKeepsMutexes(g, m, r, i, inversions);
    ArrivalKeepsStage(g, r, b, stage, m.shutdown);
    ArrivalKeepsLimit(g, r, b, stage, m.shutdown, inversions);
    ArrivalKeepsSeen(g, r, b, stage);
    ArrivalKeepsTrace(g, r, b, stage);
  }

  lemma StageUnique(g: Group, stage: Stage, shutdown: bool)
    requires StageOk(g, stage, shutdown)
    ensures StageOf(g) == stage
  {
  }

  lemma StepMovesOn(t: Thread, m: Shared, r: Role, me: Tid, inversions: int)
    requires ThreadEnabled(t.pc, m)
    ensures var n := ThreadStep(t, m, r, me, inversions);
            (m.shutdown ==> n.m.shutdown) && (n.m.owner == m.owner || n.m.owner == None || n.m.owner == Some(me))
  {
  }

  lemma StepKeepsGroup(g: Group, m: Shared, r: Role, i: nat, inversions: int)
    requires GroupOk(g, m, i, inversions) && ThreadEnabled(PcOf(g, r), m)
    ensures var (g', m') := GroupStep(g, m, r, i, inversions);
            GroupOk(g', m', i, inversions) && StageOf(g') == StageOf(g)
  {
    var (g', m') := GroupStep(g, m, r, i, inversions);
    var stage := StageOf(g);
    assert GroupAt(g', stage, m', i, inversions) by {
      if PcOf(g, r).Call? {
        ArrivalKeeps(g, m, r, i, stage, inversions);
      } else {
        match stage
        case Between => BetweenKeeps(g, m, r, i, inversions);
        case Checking => CheckingKeeps(g, m, r, i, inversions);
        case Inverting => InvertingKeeps(g, m, r, i, inversions);
        case _ => assert false;
      }
    }
    StageUnique(g', stage, m'.shutdown);
  }

  lemma PassMutexes(g: Group, b: Barrier, serial: Role, m: Shared, i: nat)
    requires MutexesOk(g, m, i) && m.vars == g.vars
    ensures var g' := PassStep(g, b, serial); MutexesOk(g', m.(vars := g'.vars), i)
  {
  }

  /** The loop barrier: everybody is there, everybody has read `loop` as true. */
  lemma PassLoop(g: Group, serial: Role, m: Shared, i: nat, inversions: int)
    requires m.vars == g.vars && GroupAt(g, Between, m, i, inversions) && PassEnabled(g, Loop, serial)
    ensures var g' := PassStep(g, Loop, serial); GroupAt(g', Checking, m.(vars := g'.vars), i, inversions)
  {
    PassMutexes(g, Loop, serial, m, i);
    OrderedSnoc(g.vars.trace, Passed(Loop));
    assert Trues(Completed(g)) + [true] == Trues(Completed(g) + 1);
  }

  lemma PassStartTrace(g: Group, serial: Role)
    requires AllAt(g, Wait(Start)) && TraceOk(g, Checking)
    ensures TraceOk(PassStep(g, Start, serial), Inverting)
  {
    OrderedSnoc(g.vars.trace, Passed(Start));
    assert ROUND[..1] + [Passed(Start)] == ROUND[..2];
  }

  lemma PassStart(g: Group, serial: Role, m: Shared, i: nat, inversions: int)
    requires m.vars == g.vars && GroupAt(g, Checking, m, i, inversions) && PassEnabled(g, Start, serial)
    ensures var g' := PassStep(g, Start, serial); GroupAt(g', Inverting, m.(vars := g'.vars), i, inversions)
  {
    var g' := PassStep(g, Start, serial);
    assert MutexesOk(g', m.(vars := g'.vars), i) by { PassMutexes(g, Start, serial, m, i); }
    PassStartTrace(g, serial);
  }

  lemma InnerPass(g: Group, b: Barrier, serial: Role)
    requires InversionOk(g) && PassEnabled(g, b, serial) && (b == Locked || b == Elevate)
    ensures NextEvent(g, PassStep(g, b, serial))
  {
  }

  lemma PassInner(g: Group, b: Barrier, serial: Role, m: Shared, i: nat, inversions: int)
    requires m.vars == g.vars && GroupAt(g, Inverting, m, i, inversions)
    requires PassEnabled(g, b, serial) && (b == Locked || b == Elevate)
    ensures var g' := PassStep(g, b, serial); GroupAt(g', Inverting, m.(vars := g'.vars), i, inversions)
  {
    var g' := PassStep(g, b, serial);
    assert MutexesOk(g', m.(vars := g'.vars), i) by { PassMutexes(g, b, serial, m, i); }
    InnerPass(g, b, serial);
    NextEventTrace(g, g');
    NextEventKeeps(g, g', m.shutdown, inversions);
  }

  lemma FinishCompletesTrace(g: Group, serial: Role)
    requires AllAt(g, Wait(Finish)) && TraceOk(g, Inverting)
    ensures TraceOk(PassStep(g, Finish, serial), Between)
  {
    OrderedSnoc(g.vars.trace, Passed(Finish));
    assert ROUND[..8] + [Passed(Finish)] == ROUND;
  }

  /** The finish barrier: the round's nine events are complete. */
  lemma PassFinish(g: Group, serial: Role, m: Shared, i: nat, inversions: int)
    requires m.vars == g.vars && GroupAt(g, Inverting, m, i, inversions) && PassEnabled(g, Finish, serial)
    ensures var g' := PassStep(g, Finish, serial); GroupAt(g', Between, m.(vars := g'.vars), i, inversions)
  {
    PassMutexes(g, Finish, serial, m, i);
    FinishCompletesTrace(g, serial);
  }

  /** The stage a group is in before and after a barrier. */
  function StageBefore(b: Barrier): Stage {
    match b
    case Loop => Between
    case Start => Checking
    case _ => Inverting
  }

  function StageAfter(b: Barrier): Stage {
    match b
    case Loop => Checking
    case Finish => Between
    case _ => Inverting
  }

  /** Which group barrier can pass is decided by the stage. */
  lemma PassStage(g: Group, b: Barrier, serial: Role, shutdown: bool)
    requires StageOk(g, StageOf(g), shutdown) && PassEnabled(g, b, serial)
    ensures StageOf(g) == StageBefore(b)
  {
  }

  lemma PassKeepsGroup(g: Group, b: Barrier, serial: Role, m: Shared, i: nat, inversions: int)
    requires GroupOk(g, m, i, inversions) && PassEnabled(g, b, serial)
    ensures var g' := PassStep(g, b, serial);
            && GroupOk(g', m.(vars := g'.vars), i, inversions)
            && StageOf(g') != Fresh && StageOf(g') != Gone && StageOf(g) != Fresh && StageOf(g) != Gone
  {
    var g' := PassStep(g, b, serial);
    assert StageOf(g) == StageBefore(b) by { PassStage(g, b, serial, m.shutdown); }
    assert GroupAt(g', StageAfter(b), m.(vars := g'.vars), i, inversions) by {
      match b
      case Loop => PassLoop(g, serial, m, i, inversions);
      case Start => PassStart(g, serial, m, i, inversions);
      case Finish => PassFinish(g, serial, m, i, inversions);
      case _ => PassInner(g, b, serial, m, i, inversions);
    }
    StageUnique(g', StageAfter(b), m.shutdown);
  }
}
