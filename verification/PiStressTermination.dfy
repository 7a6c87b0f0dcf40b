/**
 Once the shutdown flag is set, every step brings the pi_stress system closer to its end:
 each group finishes the round it is in and at most one more.
 */
module PiStressTermination {
  import opened PiStress
  import opened PiStressInvariant
  import opened PiStressSystem
  import opened PiStressProgress

  /** How far a thread is from the end of the round it is in, or from its exit. */
  function Rank(r: Role, pc: Pc): nat {
    match pc
    case Bump => 36
    case Top => 35
    case SetLock(leaving) => if leaving then 13 else 34
    case SetBody(leaving) => if leaving then 12 else 33
    case LoopLock => 32
    case LoopRead => 31
    case CheckLock => 28
    case CheckRead => 27
    case ClearLock => 26
    case ClearBody => 25
    case CheckUnlock => 24
    case MutexLock => if r.Low? then 21 else 18
    case MutexUnlock => 16
    case Exited => 0
    case Call(b) => BarrierRank(b) + 1
    case Wait(b) => BarrierRank(b)
  }

  function BarrierRank(b: Barrier): nat {
    match b
    case Ready => 37
    case Loop => 29
    case Start => 22
    case Locked => 19
    case Elevate => 17
    case Finish => 14
    case Done => 10
  }

  /** Rounds the group will still finish once the flag is set. */
  function RoundsLeft(g: Group, stage: Stage): nat {
    match stage
    case Between => if g.vars.loop then 1 else 0
    case Checking => if g.vars.loop && !Pending(g) then 2 else 1
    case Inverting => if g.vars.loop then 2 else 1
    case _ => 0
  }

  /** Rounds the group will have finished in the end. */
  function Budget(g: Group): nat {
    Completed(g) + RoundsLeft(g, StageOf(g))
  }

  function RankSum(g: Group): nat {
    Rank(Low, g.low.pc) + Rank(Med, g.med.pc) + Rank(High, g.high.pc)
  }

  function GroupMeasure(g: Group): nat {
    80 * RoundsLeft(g, StageOf(g)) + RankSum(g)
  }

  /** A thread's own statements bring it forward. */
  lemma StepRank(t: Thread, m: Shared, r: Role, me: Tid, inversions: int)
    requires ThreadEnabled(t.pc, m)
    ensures Rank(r, ThreadStep(t, m, r, me, inversions).t.pc) < Rank(r, t.pc)
  {
  }

  lemma CompletedStays(g: Group, m: Shared, r: Role, i: nat, inversions: int)
    requires m.vars == g.vars && StageOk(g, StageOf(g), m.shutdown) && ThreadEnabled(PcOf(g, r), m)
    ensures var (g', m') := GroupStep(g, m, r, i, inversions); Completed(g') == Completed(g)
  {
    if !PcOf(g, r).Call? {
      match StageOf(g)
      case Between => BetweenStep(ThreadOf(g, r), m, r, Worker(i, r), inversions);
      case Checking => CheckingStep(ThreadOf(g, r), m, r, Worker(i, r), inversions);
      case Inverting => InvertingStep(g, m, r, Worker(i, r), inversions);
      case _ =>
    }
  }

  lemma CheckingRoundsStay(g: Group, m: Shared, r: Role, i: nat, inversions: int)
    requires m.vars == g.vars && CheckingOk(g, m.shutdown) && ThreadEnabled(PcOf(g, r), m) && m.shutdown
    ensures var (g', m') := GroupStep(g, m, r, i, inversions); RoundsLeft(g', Checking) == RoundsLeft(g, Checking)
  {
    if !PcOf(g, r).Call? {
      CheckingStep(ThreadOf(g, r), m, r, Worker(i, r), inversions);
    }
  }

  lemma RoundsStay(g: Group, m: Shared, r: Role, i: nat, inversions: int)
    requires m.vars == g.vars && StageOk(g, StageOf(g), m.shutdown) && ThreadEnabled(PcOf(g, r), m) && m.shutdown
    ensures var (g', m') := GroupStep(g, m, r, i, inversions); RoundsLeft(g', StageOf(g)) == RoundsLeft(g, StageOf(g))
  {
    if StageOf(g) == Checking {
      CheckingRoundsStay(g, m, r, i, inversions);
    } else if !PcOf(g, r).Call? {
      match StageOf(g)
      case Between => BetweenStep(ThreadOf(g, r), m, r, Worker(i, r), inversions);
      case Inverting => InvertingStep(g, m, r, Worker(i, r), inversions);
      case _ =>
    }
  }

  lemma StepMeasure(g: Group, m: Shared, r: Role, i: nat, inversions: int)
    requires m.vars == g.vars && StageOk(g, StageOf(g), m.shutdown) && ThreadEnabled(PcOf(g, r), m) && m.shutdown
    ensures var (g', m') := GroupStep(g, m, r, i, inversions);
            && RankSum(g') < RankSum(g)
            && RoundsLeft(g', StageOf(g)) == RoundsLeft(g, StageOf(g))
            && Completed(g') == Completed(g)
  {
    StepRank(ThreadOf(g, r), m, r, Worker(i, r), inversions);
    CompletedStays(g, m, r, i, inversions);
    RoundsStay(g, m, r, i, inversions);
  }

  /** What a step does to the group: it comes closer to its end, and the rounds it has
      completed and those it still will add up to the same number. */
  predicate Closer(g: Group, g': Group) {
    && GroupMeasure(g') < GroupMeasure(g)
    && Budget(g') == Budget(g)
  }

  lemma OuterPassCloser(g: Group, b: Barrier, serial: Role)
    requires AllAt(g, Wait(b)) && (b == Loop || b == Start || b == Finish)
    requires b == Loop ==> g.vars.loop
    ensures Closer(g, PassStep(g, b, serial))
  {
    var g' := PassStep(g, b, serial);
    if b == Loop {
      assert StageOf(g') == Checking && Pending(g');
    }
  }

  lemma InnerPassRank(g: Group, b: Barrier, serial: Role)
    requires b == Locked || b == Elevate
    ensures RankSum(PassStep(g, b, serial)) <= RankSum(g) - Waiting(g, b)
  {
  }

  lemma InnerPassStage(g: Group, b: Barrier, serial: Role)
    requires InversionOk(g) && PassEnabled(g, b, serial) && (b == Locked || b == Elevate)
    ensures var g' := PassStep(g, b, serial);
            StageOf(g) == Inverting && StageOf(g') == Inverting && Completed(g') == Completed(g)
  {
    StageUnique(g, Inverting, false);
    InnerPass(g, b, serial);
    StageUnique(PassStep(g, b, serial), Inverting, false);
  }

  lemma InnerPassCloser(g: Group, b: Barrier, serial: Role)
    requires InversionOk(g) && PassEnabled(g, b, serial) && (b == Locked || b == Elevate)
    ensures Closer(g, PassStep(g, b, serial))
  {
    InnerPassRank(g, b, serial);
    InnerPassStage(g, b, serial);
  }

  lemma PassCloser(g: Group, b: Barrier, serial: Role, shutdown: bool)
    requires StageOk(g, StageOf(g), shutdown) && PassEnabled(g, b, serial)
    ensures Closer(g, PassStep(g, b, serial))
  {
    if b == Locked || b == Elevate {
      InnerPassCloser(g, b, serial);
    } else {
      OuterPassCloser(g, b, serial);
    }
  }

  function MainRank(pc: MainPc): nat {
    match pc
    case ReportLock => 14
    case ReportBody => 13
    case Decide => 12
    case MainSetLock(site) => (match site case Expired => 11 case ReporterEnd => 7 case MainEnd => 5)
    case MainSetBody(site) => (match site case Expired => 10 case ReporterEnd => 6 case MainEnd => 4)
    case PollLock => 9
    case PollBody => 8
    case MainWait(_) => 3
    case MainExited => 0
  }

  function GroupsMeasure(groups: seq<Group>): nat {
    if groups == [] then 0 else GroupMeasure(groups[0]) + GroupsMeasure(groups[1..])
  }

  function Measure(s: State): nat {
    GroupsMeasure(s.groups) + MainRank(s.main)
  }

  lemma {:induction false} MeasureUpdate(groups: seq<Group>, i: nat, g: Group)
    requires i < |groups|
    ensures GroupsMeasure(groups[i := g]) == GroupsMeasure(groups) - GroupMeasure(groups[i]) + GroupMeasure(g)
  {
    if i > 0 {
      assert groups[i := g][1..] == groups[1..][i - 1 := g];
      MeasureUpdate(groups[1..], i - 1, g);
    } else {
      assert groups[i := g][1..] == groups[1..];
    }
  }

  lemma ReleaseMeasure(g: Group)
    requires AllAt(g, Wait(Done))
    ensures GroupMeasure(ReleaseAll(g, Done, Low)) <= GroupMeasure(g)
    ensures Budget(ReleaseAll(g, Done, Low)) <= Budget(g)
  {
  }

  lemma {:induction false} MeasureRelease(groups: seq<Group>)
    requires forall i :: 0 <= i < |groups| ==> AllAt(groups[i], Wait(Done))
    ensures GroupsMeasure(ReleaseGroups(groups, Done)) <= GroupsMeasure(groups)
  {
    if groups != [] {
      assert ReleaseGroups(groups, Done)[1..] == ReleaseGroups(groups[1..], Done);
      ReleaseMeasure(groups[0]);
      MeasureRelease(groups[1..]);
    }
  }

  /** With the flag set, the measure decreases and no group's rounds increase. */
  predicate Progress(s: State, s': State) {
    && Measure(s') < Measure(s)
    && |s'.groups| == |s.groups|
    && forall i :: 0 <= i < |s.groups| ==> Budget(s'.groups[i]) <= Budget(s.groups[i])
  }

  lemma GroupProgress(s: State, s': State, i: nat)
    requires i < |s.groups| && s'.main == s.main
    requires |s'.groups| == |s.groups| && s'.groups == s.groups[i := s'.groups[i]]
    requires Closer(s.groups[i], s'.groups[i])
    ensures Progress(s, s')
  {
    MeasureUpdate(s.groups, i, s'.groups[i]);
  }

  lemma LocalProgress(s: State, i: nat, r: Role)
    requires Inv(s) && s.shutdown && Enabled(s, Local(i, r))
    ensures Progress(s, Apply(s, Local(i, r)))
  {
    var g, m := s.groups[i], SharedOf(s, i);
    StepMeasure(g, m, r, i, s.inversions);
    StepKeepsGroup(g, m, r, i, s.inversions);
    GroupProgress(s, Apply(s, Local(i, r)), i);
  }

  lemma PassProgress(s: State, i: nat, b: Barrier, serial: Role)
    requires Inv(s) && s.shutdown && Enabled(s, Pass(i, b, serial))
    ensures Progress(s, Apply(s, Pass(i, b, serial)))
  {
    assert GroupOk(s.groups[i], SharedOf(s, i), i, s.inversions);
    PassCloser(s.groups[i], b, serial, s.shutdown);
    GroupProgress(s, Apply(s, Pass(i, b, serial)), i);
  }

  lemma ReleaseBudgets(groups: seq<Group>)
    requires forall i :: 0 <= i < |groups| ==> AllAt(groups[i], Wait(Done))
    ensures var groups' := ReleaseGroups(groups, Done);
            forall i :: 0 <= i < |groups| ==> Budget(groups'[i]) <= Budget(groups[i])
  {
    forall i | 0 <= i < |groups|
      ensures Budget(ReleaseGroups(groups, Done)[i]) <= Budget(groups[i])
    {
      ReleaseMeasure(groups[i]);
    }
  }

  lemma DoneMeansAll(s: State)
    requires GlobalPassEnabled(s, Done)
    ensures s.main == MainWait(Done) && forall i :: 0 <= i < |s.groups| ==> AllAt(s.groups[i], Wait(Done))
  {
    EverybodyWaits(s.groups, Done);
  }

  lemma MainLeaves(s: State, s': State)
    requires s.main == MainWait(Done) && s'.main == MainExited
    requires GroupsMeasure(s'.groups) <= GroupsMeasure(s.groups)
    ensures Measure(s') < Measure(s)
  {
  }

  lemma DoneMeasure(s: State)
    requires Enabled(s, PassDone)
    ensures Measure(Apply(s, PassDone)) < Measure(s)
  {
    DoneMeansAll(s);
    MeasureRelease(s.groups);
    MainLeaves(s, Apply(s, PassDone));
  }

  lemma DoneBudgets(s: State)
    requires Enabled(s, PassDone)
    ensures var s' := Apply(s, PassDone);
            forall i :: 0 <= i < |s.groups| ==> Budget(s'.groups[i]) <= Budget(s.groups[i])
  {
    DoneMeansAll(s);
    ReleaseBudgets(s.groups);
  }

  lemma MainProgress(s: State, expired: bool)
    requires s.shutdown && MainEnabled(s)
    ensures Progress(s, MainApply(s, expired))
  {
    assert MainApply(s, expired).groups == s.groups;
    assert MainRank(MainApply(s, expired).main) < MainRank(s.main);
  }

  /** With the flag set, every step of every thread is progress. */
  lemma ShutdownStep(s: State, a: Action)
    requires Inv(s) && s.shutdown && Enabled(s, a)
    ensures Progress(s, Apply(s, a))
  {
    match a
    case Local(i, r) => LocalProgress(s, i, r);
    case Pass(i, b, serial) => PassProgress(s, i, b, serial);
    case PassReady => EverybodyWaits(s.groups, Ready); assert false;
    case PassDone => DoneMeasure(s); DoneBudgets(s);
    case MainStep(expired) => MainProgress(s, expired);
  }

  lemma {:induction false} ShutdownRun(s: State, actions: seq<Action>)
    requires Inv(s) && s.shutdown && IsRun(s, actions)
    ensures |actions| <= Measure(s)
    ensures actions != [] ==> Progress(s, RunEnd(s, actions))
    decreases |actions|
  {
    if actions != [] {
      var s' := Apply(s, actions[0]);
      StepKeepsInv(s, actions[0]);
      ShutdownStep(s, actions[0]);
      ShutdownRun(s', actions[1..]);
    }
  }

  /** After the flag is set no run goes on for more than Measure(s) steps, a run that cannot
      go on has all threads past all_threads_done, and no group completes more than the round
      it is in and one further round. */
  lemma ShutdownEnds(s: State, ngroups: nat, inversions: int, actions: seq<Action>)
    requires Reachable(s, ngroups, inversions) && s.shutdown && IsRun(s, actions)
    ensures |actions| <= Measure(s)
    ensures var e := RunEnd(s, actions); (forall a :: !Enabled(e, a)) ==> AllExited(e)
    ensures var e := RunEnd(s, actions);
            |e.groups| == |s.groups| == ngroups
            && forall i :: 0 <= i < ngroups ==> Completed(e.groups[i]) <= Completed(s.groups[i]) + 2
  {
    ReachableInv(s, ngroups, inversions);
    RunKeepsInv(s, actions);
    ShutdownRun(s, actions);
    var e := RunEnd(s, actions);
    if !AllExited(e) {
      var a := InvMoves(e);
      assert Enabled(e, a);
    }
  }
}
