/**
 Why a pi_stress run ends: the shutdown flag is set only when a group has performed the
 inversions asked for, or when the duration has expired; and then it does end.
 */
module PiStressCause {
  import opened PiStress
  import opened PiStressInvariant
  import opened PiStressSystem
  import opened PiStressTermination

  /** Main has not been told that the duration is over. */
  predicate Unexpired(actions: seq<Action>) {
    forall k :: 0 <= k < |actions| ==> actions[k] != MainStep(true)
  }

  /** A thread that is about to set the flag from inside its loop has a reason. */
  predicate HasReason(pc: Pc, total: nat, inversions: int) {
    pc == SetLock(false) || pc == SetBody(false) ==> 0 <= inversions <= total
  }

  predicate ReasonsOk(g: Group, inversions: int) {
    && HasReason(g.low.pc, g.vars.total, inversions)
    && HasReason(g.med.pc, g.vars.total, inversions)
    && HasReason(g.high.pc, g.vars.total, inversions)
  }

  /** The group has performed the inversions asked for, and performs or has performed the one
      round more that it takes to notice. */
  predicate Committed(g: Group, inversions: int) {
    && g.vars.total >= inversions
    && (Completed(g) > inversions || StageOf(g) == Checking || StageOf(g) == Inverting
        || (StageOf(g) == Between && g.vars.loop))
  }

  predicate SomeCommitted(groups: seq<Group>, inversions: int) {
    exists i :: 0 <= i < |groups| && Committed(groups[i], inversions)
  }

  /** Main sets the flag only behind somebody else. */
  predicate MainFollows(s: State) {
    match s.main
    case MainSetLock(site) => site != Expired && s.shutdown
    case MainSetBody(site) => site != Expired && s.shutdown
    case MainWait(b) => b == Done ==> s.shutdown
    case MainExited => s.shutdown
    case _ => true
  }

  predicate AllReasonsOk(s: State) {
    forall i :: 0 <= i < |s.groups| ==> ReasonsOk(s.groups[i], s.inversions)
  }

  predicate Caused(s: State) {
    s.shutdown ==> s.inversions >= 0 && SomeCommitted(s.groups, s.inversions)
  }

  predicate CauseInv(s: State) {
    AllReasonsOk(s) && Caused(s) && MainFollows(s)
  }

  // ---------------------------------------------------------------- steps of a thread

  lemma StepReason(t: Thread, m: Shared, r: Role, me: Tid, inversions: int)
    requires ThreadEnabled(t.pc, m) && HasReason(t.pc, m.vars.total, inversions)
    ensures var n := ThreadStep(t, m, r, me, inversions);
            HasReason(n.t.pc, n.m.vars.total, inversions) && n.m.vars.total >= m.vars.total
  {
  }

  lemma LocalReasons(g: Group, m: Shared, r: Role, i: nat, inversions: int)
    requires m.vars == g.vars && ThreadEnabled(PcOf(g, r), m) && ReasonsOk(g, inversions)
    ensures var (g', m') := GroupStep(g, m, r, i, inversions); ReasonsOk(g', inversions) && g'.vars.total >= g.vars.total
  {
    assert HasReason(PcOf(g, r), g.vars.total, inversions);
    StepReason(ThreadOf(g, r), m, r, Worker(i, r), inversions);
  }

  /** Between two rounds `loop` is not touched, elsewhere the stage stays. */
  lemma LocalLoop(g: Group, m: Shared, r: Role, i: nat, inversions: int)
    requires m.vars == g.vars && BetweenOk(g) && ThreadEnabled(PcOf(g, r), m)
    ensures var (g', m') := GroupStep(g, m, r, i, inversions); g'.vars.loop == g.vars.loop
  {
    if !PcOf(g, r).Call? {
      BetweenStep(ThreadOf(g, r), m, r, Worker(i, r), inversions);
    }
  }

  lemma LocalCommitted(g: Group, m: Shared, r: Role, i: nat, inversions: int)
    requires GroupOk(g, m, i, inversions) && ThreadEnabled(PcOf(g, r), m) && Committed(g, inversions)
    requires ReasonsOk(g, inversions)
    ensures var (g', m') := GroupStep(g, m, r, i, inversions); Committed(g', inversions)
  {
    LocalReasons(g, m, r, i, inversions);
    CompletedStays(g, m, r, i, inversions);
    StepKeepsGroup(g, m, r, i, inversions);
    if StageOf(g) == Between {
      LocalLoop(g, m, r, i, inversions);
    }
  }

  lemma SetterStep(t: Thread, m: Shared, r: Role, me: Tid, inversions: int)
    requires ThreadEnabled(t.pc, m) && !m.shutdown
    ensures ThreadStep(t, m, r, me, inversions).m.shutdown ==> t.pc.SetBody?
  {
  }

  /** The thread that sets the flag first makes its group one that has a reason. */
  lemma SetterCommits(g: Group, m: Shared, r: Role, i: nat, inversions: int)
    requires GroupOk(g, m, i, inversions) && ReasonsOk(g, inversions) && !m.shutdown && PcOf(g, r).SetBody?
    ensures var (g', m') := GroupStep(g, m, r, i, inversions);
            0 <= inversions && Committed(g', inversions)
  {
    SetterBetween(g, m.shutdown, r);
    assert HasReason(PcOf(g, r), g.vars.total, inversions);
    LocalCommitted(g, m, r, i, inversions);
  }

  lemma SetterBetween(g: Group, shutdown: bool, r: Role)
    requires StageOk(g, StageOf(g), shutdown) && PcOf(g, r).SetBody? && (!g.vars.loop ==> shutdown) && !shutdown
    ensures StageOf(g) == Between && g.vars.loop && PcOf(g, r) == SetBody(false)
  {
    if StageOf(g) == Between {
      assert BetweenPc(r, PcOf(g, r), g.vars.loop);
    }
  }

  // ---------------------------------------------------------------- barriers

  lemma PassReasons(g: Group, b: Barrier, serial: Role, inversions: int)
    requires ReasonsOk(g, inversions)
    ensures ReasonsOk(ReleaseAll(g, b, serial), inversions)
  {
  }

  lemma PassCommitted(g: Group, m: Shared, i: nat, b: Barrier, serial: Role, inversions: int)
    requires GroupOk(g, m, i, inversions) && PassEnabled(g, b, serial) && Committed(g, inversions)
    ensures Committed(PassStep(g, b, serial), inversions)
  {
    var g' := PassStep(g, b, serial);
    PassStage(g, b, serial, m.shutdown);
    PassKeepsGroup(g, b, serial, m, i, inversions);
    PassChanges(g, b, serial);
    if b == Finish {
      FinishCounts(g, serial);
    }
  }

  lemma PassChanges(g: Group, b: Barrier, serial: Role)
    requires PassEnabled(g, b, serial) && StageOf(g) == StageBefore(b) && InversionOrElse(g)
    ensures var g' := PassStep(g, b, serial);
            g'.vars.total == g.vars.total && (b != Finish ==> Completed(g') >= Completed(g) && StageOf(g') == StageAfter(b))
  {
  }

  predicate InversionOrElse(g: Group) { StageOf(g) == Inverting ==> InversionOk(g) }

  lemma FinishCounts(g: Group, serial: Role)
    requires AllAt(g, Wait(Finish))
    ensures Completed(PassStep(g, Finish, serial)) == g.vars.total + 1
  {
  }

  lemma DoneCommitted(g: Group, m: Shared, i: nat, inversions: int)
    requires GroupOk(g, m, i, inversions) && AllAt(g, Wait(Done)) && Committed(g, inversions)
    ensures Committed(ReleaseAll(g, Done, Low), inversions)
  {
    assert StageOf(g) == Between && BetweenPc(Low, g.low.pc, g.vars.loop);
  }

  // ---------------------------------------------------------------- the whole system

  lemma SomeUpdated(groups: seq<Group>, i: nat, g: Group, inversions: int)
    requires i < |groups| && SomeCommitted(groups, inversions)
    requires Committed(groups[i], inversions) ==> Committed(g, inversions)
    ensures SomeCommitted(groups[i := g], inversions)
  {
    var k :| 0 <= k < |groups| && Committed(groups[k], inversions);
    assert Committed(groups[i := g][k], inversions);
  }

  lemma LocalCaused(s: State, i: nat, r: Role)
    requires GroupsOk(s) && AllReasonsOk(s) && Caused(s) && Enabled(s, Local(i, r))
    ensures Caused(LocalApply(s, i, r))
  {
    var g, m := s.groups[i], SharedOf(s, i);
    var (g', m') := GroupStep(g, m, r, i, s.inversions);
    assert GroupOk(g, m, i, s.inversions) && ReasonsOk(g, s.inversions);
    if s.shutdown {
      if Committed(g, s.inversions) {
        LocalCommitted(g, m, r, i, s.inversions);
      }
      SomeUpdated(s.groups, i, g', s.inversions);
    } else if m'.shutdown {
      SetterStep(ThreadOf(g, r), m, r, Worker(i, r), s.inversions);
      SetterCommits(g, m, r, i, s.inversions);
      assert Committed(s.groups[i := g'][i], s.inversions);
    }
  }

  lemma LocalAllReasons(s: State, i: nat, r: Role)
    requires AllReasonsOk(s) && Enabled(s, Local(i, r))
    ensures AllReasonsOk(LocalApply(s, i, r))
  {
    LocalReasons(s.groups[i], SharedOf(s, i), r, i, s.inversions);
  }

  lemma LocalFollows(s: State, i: nat, r: Role)
    requires MainFollows(s) && Enabled(s, Local(i, r))
    ensures MainFollows(LocalApply(s, i, r))
  {
    StepMovesOn(ThreadOf(s.groups[i], r), SharedOf(s, i), r, Worker(i, r), s.inversions);
  }

  lemma PassCause(s: State, i: nat, b: Barrier, serial: Role)
    requires GroupsOk(s) && AllReasonsOk(s) && Caused(s) && Enabled(s, Pass(i, b, serial))
    ensures var s' := s.(groups := s.groups[i := PassStep(s.groups[i], b, serial)]); AllReasonsOk(s') && Caused(s')
  {
    var g := s.groups[i];
    assert GroupOk(g, SharedOf(s, i), i, s.inversions) && ReasonsOk(g, s.inversions);
    PassReasons(g, b, serial, s.inversions);
    if s.shutdown {
      if Committed(g, s.inversions) {
        PassCommitted(g, SharedOf(s, i), i, b, serial, s.inversions);
      }
      SomeUpdated(s.groups, i, PassStep(g, b, serial), s.inversions);
    }
  }

  lemma GlobalReasons(s: State, s': State, b: Barrier)
    requires AllReasonsOk(s) && s'.groups == ReleaseGroups(s.groups, b) && s'.inversions == s.inversions
    ensures AllReasonsOk(s')
  {
    forall i | 0 <= i < |s'.groups| ensures ReasonsOk(s'.groups[i], s'.inversions) {
      PassReasons(s.groups[i], b, Low, s.inversions);
    }
  }

  lemma DoneCaused(s: State)
    requires GroupsOk(s) && Caused(s) && Enabled(s, PassDone)
    ensures s.main == MainWait(Done) && Caused(s.(groups := ReleaseGroups(s.groups, Done), main := MainExited))
  {
    DoneMeansAll(s);
    if s.shutdown {
      var k :| 0 <= k < |s.groups| && Committed(s.groups[k], s.inversions);
      assert GroupOk(s.groups[k], SharedOf(s, k), k, s.inversions);
      DoneCommitted(s.groups[k], SharedOf(s, k), k, s.inversions);
      assert Committed(ReleaseGroups(s.groups, Done)[k], s.inversions);
    }
  }

  lemma MainCause(s: State, expired: bool)
    requires CauseInv(s) && MainEnabled(s) && (expired ==> s.main != Decide)
    ensures CauseInv(MainApply(s, expired))
  {
    var s' := MainApply(s, expired);
    assert s'.groups == s.groups && s'.inversions == s.inversions;
    assert s'.shutdown == s.shutdown;
  }

  lemma CauseStep(s: State, a: Action)
    requires Inv(s) && CauseInv(s) && Enabled(s, a) && a != MainStep(true)
    ensures CauseInv(Apply(s, a))
  {
    match a
    case Local(i, r) =>
      LocalAllReasons(s, i, r);
      LocalCaused(s, i, r);
      LocalFollows(s, i, r);
    case Pass(i, b, serial) => PassCause(s, i, b, serial);
    case PassReady =>
      EverybodyWaits(s.groups, Ready);
      GlobalReasons(s, Apply(s, a), Ready);
    case PassDone =>
      DoneCaused(s);
      GlobalReasons(s, Apply(s, a), Done);
    case MainStep(expired) => MainCause(s, expired);
  }

  lemma {:induction false} CauseRun(s: State, actions: seq<Action>)
    requires Inv(s) && CauseInv(s) && IsRun(s, actions) && Unexpired(actions)
    ensures CauseInv(RunEnd(s, actions))
    decreases |actions|
  {
    if actions != [] {
      CauseStep(s, actions[0]);
      StepKeepsInv(s, actions[0]);
      assert forall k :: 0 <= k < |actions[1..]| ==> actions[1..][k] == actions[k + 1];
      CauseRun(Apply(s, actions[0]), actions[1..]);
    }
  }

  lemma InitCause(ngroups: nat, inversions: int)
    ensures CauseInv(Init(ngroups, inversions))
  {
  }

  // ---------------------------------------------------------------- the theorems

  /** In every run in which the duration does not expire the flag is set only after some group
      has performed the inversions asked for; without a limit it is never set. */
  lemma ShutdownHasCause(ngroups: nat, inversions: int, actions: seq<Action>)
    requires IsRun(Init(ngroups, inversions), actions) && Unexpired(actions)
    ensures var s := RunEnd(Init(ngroups, inversions), actions);
            s.shutdown ==> inversions >= 0 && exists i :: 0 <= i < |s.groups| && s.groups[i].vars.total >= inversions
  {
    InitInv(ngroups, inversions);
    InitCause(ngroups, inversions);
    CauseRun(Init(ngroups, inversions), actions);
    RunKeepsInv(Init(ngroups, inversions), actions);
    var s := RunEnd(Init(ngroups, inversions), actions);
    if s.shutdown {
      var i :| 0 <= i < |s.groups| && Committed(s.groups[i], s.inversions);
    }
  }

  lemma GonePerformed(g: Group, m: Shared, i: nat, inversions: int)
    requires GroupOk(g, m, i, inversions) && StageOf(g) == Gone && Committed(g, inversions) && inversions >= 0
    ensures g.vars.total == inversions + 1
  {
  }

  /** When all threads of such a run have exited, some group has performed exactly one
      inversion more than asked for. */
  lemma InversionsPerformed(ngroups: nat, inversions: int, actions: seq<Action>)
    requires ngroups > 0 && IsRun(Init(ngroups, inversions), actions) && Unexpired(actions)
    requires AllExited(RunEnd(Init(ngroups, inversions), actions))
    ensures inversions >= 0
    ensures var s := RunEnd(Init(ngroups, inversions), actions);
            exists i :: 0 <= i < |s.groups| && s.groups[i].vars.total == inversions + 1
  {
    InitInv(ngroups, inversions);
    InitCause(ngroups, inversions);
    CauseRun(Init(ngroups, inversions), actions);
    RunKeepsInv(Init(ngroups, inversions), actions);
    var s := RunEnd(Init(ngroups, inversions), actions);
    var i :| 0 <= i < |s.groups| && Committed(s.groups[i], s.inversions);
    assert GroupOk(s.groups[i], SharedOf(s, i), i, s.inversions);
    assert StageOf(s.groups[i]) == Gone;
    GonePerformed(s.groups[i], SharedOf(s, i), i, s.inversions);
  }

  predicate Expiring(s: State) {
    s.shutdown || s.main == MainSetLock(Expired) || s.main == MainSetBody(Expired)
  }

  lemma ExpiringStep(s: State, a: Action)
    requires Inv(s) && Expiring(s) && Enabled(s, a)
    ensures Expiring(Apply(s, a))
  {
    StepKeepsInv(s, a);
    match a
    case Local(i, r) =>
    case Pass(i, b, serial) =>
    case PassReady => EverybodyWaits(s.groups, Ready);
    case PassDone => EverybodyWaits(s.groups, Done);
    case MainStep(expired) =>
  }

  lemma {:induction false} ExpiringRun(s: State, actions: seq<Action>)
    requires Inv(s) && Expiring(s) && IsRun(s, actions)
    ensures Expiring(RunEnd(s, actions))
    decreases |actions|
  {
    if actions != [] {
      ExpiringStep(s, actions[0]);
      StepKeepsInv(s, actions[0]);
      ExpiringRun(Apply(s, actions[0]), actions[1..]);
    }
  }

  /** When main finds that the duration is over, nothing else comes between it and the flag: in
      every run from there main is setting it, or it is set. */
  lemma ExpiryTakesEffect(s: State, ngroups: nat, inversions: int, actions: seq<Action>)
    requires Reachable(s, ngroups, inversions) && s.main == Decide
    requires IsRun(Apply(s, MainStep(true)), actions)
    ensures Expiring(RunEnd(Apply(s, MainStep(true)), actions))
  {
    ReachableInv(s, ngroups, inversions);
    StepKeepsInv(s, MainStep(true));
    ExpiringRun(Apply(s, MainStep(true)), actions);
  }

  /** One turn of main's reporter while nobody asks for the end: it reads the flag, reports, and
      comes to look at the duration; nothing else is changed. */
  lemma ReporterTurn(s: State)
    requires s.main == PollLock && s.owner == None && !s.shutdown
    ensures MainEnabled(s) && var s1 := MainApply(s, false);
            MainEnabled(s1) && var s2 := MainApply(s1, false);
            MainEnabled(s2) && var s3 := MainApply(s2, false);
            MainEnabled(s3) && MainApply(s3, false) == s.(main := Decide)
  {
  }

  /** A thread that finds `loop` cleared sets the flag itself before it goes to the last
      barrier, whether it is set already or not. */
  lemma LeavingSetsFlag(t: Thread, m: Shared, r: Role, me: Tid, inversions: int)
    requires t.pc == LoopRead && !m.vars.loop && m.owner == None
    ensures var n1 := ThreadStep(t, m, r, me, inversions);
            ThreadEnabled(n1.t.pc, n1.m) && !n1.t.pc.Call? && var n2 := ThreadStep(n1.t, n1.m, r, me, inversions);
            n2.m.owner == Some(me) && ThreadEnabled(n2.t.pc, n2.m) && var n3 := ThreadStep(n2.t, n2.m, r, me, inversions);
            n3.m.shutdown && n3.m.owner == None && n3.t.pc == Call(Done)
  {
  }

  /** Main leaves its reporter when it has read the flag, and sets it twice more on its way to
      the last barrier. */
  lemma MainLeavesByFlag(s: State)
    requires s.main == PollBody && s.shutdown && s.owner == Some(MainThread)
    ensures var s1 := MainApply(s, false);
            s1.owner == None && var s2 := MainApply(s1, false);
            s2.owner == Some(MainThread) && var s3 := MainApply(s2, false);
            s3.owner == None && s3.shutdown && var s4 := MainApply(s3, false);
            s4.owner == Some(MainThread) && MainApply(s4, false) == s.(main := MainWait(Done), owner := None)
  {
  }
}
