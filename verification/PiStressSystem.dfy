/**
 The invariant of the whole pi_stress system, any number of groups and main together, and
 what it says about every run.
 */
module PiStressSystem {
  import opened PiStress
  import opened PiStressInvariant

  predicate MainHolds(pc: MainPc) {
    pc.PollBody? || pc.ReportBody? || pc.MainSetBody?
  }

  predicate GroupsOk(s: State) {
    forall i :: 0 <= i < |s.groups| ==> GroupOk(s.groups[i], SharedOf(s, i), i, s.inversions)
  }

  /** The global barriers hold all threads back or release them all. */
  predicate InStep(s: State) {
    forall i :: 0 <= i < |s.groups| ==>
      && (StageOf(s.groups[i]) == Fresh <==> s.main == MainWait(Ready))
      && (StageOf(s.groups[i]) == Gone <==> s.main == MainExited)
  }

  predicate MainOk(s: State) {
    && (s.main.MainWait? ==> s.main == MainWait(Ready) || s.main == MainWait(Done))
    && (s.main == MainWait(Ready) ==> !s.shutdown)
    && (s.owner == Some(MainThread) <==> MainHolds(s.main))
    && (s.owner.Some? && s.owner.value.Worker? ==> s.owner.value.group < |s.groups|)
  }

  predicate Inv(s: State) {
    GroupsOk(s) && InStep(s) && MainOk(s)
  }

  lemma InitInv(n: nat, inversions: int)
    ensures Inv(Init(n, inversions))
  {
    var s := Init(n, inversions);
    forall i | 0 <= i < n
      ensures GroupOk(s.groups[i], SharedOf(s, i), i, inversions)
    {
      assert Rounds(0) + ROUND[..0] == [];
    }
  }

  /** A group is not disturbed by shutdown being set or by others taking shutdown_mtx. */
  lemma GroupStable(g: Group, m: Shared, m': Shared, i: nat, inversions: int)
    requires GroupOk(g, m, i, inversions)
    requires m'.vars == m.vars && (m.shutdown ==> m'.shutdown)
    requires forall r :: m'.owner == Some(Worker(i, r)) <==> m.owner == Some(Worker(i, r))
    ensures GroupOk(g, m', i, inversions)
  {
  }

  /** A thread's step takes or frees shutdown_mtx for itself only. */
  lemma LocalKeepsMain(s: State, i: nat, r: Role)
    requires MainOk(s) && GroupsOk(s) && Enabled(s, Local(i, r))
    requires s.main == MainWait(Ready) ==> StageOf(s.groups[i]) == Fresh
    ensures MainOk(LocalApply(s, i, r))
  {
    var m := SharedOf(s, i);
    StepMovesOn(ThreadOf(s.groups[i], r), m, r, Worker(i, r), s.inversions);
    assert MutexesOk(s.groups[i], m, i);
    FreesOwn(ThreadOf(s.groups[i], r), m, r, Worker(i, r), s.inversions);
  }

  lemma FreesOwn(t: Thread, m: Shared, r: Role, me: Tid, inversions: int)
    requires HoldsOk(t.pc, m, r, me) && ThreadEnabled(t.pc, m)
    ensures var n := ThreadStep(t, m, r, me, inversions);
            n.m.owner != m.owner ==> (m.owner == None && n.m.owner == Some(me)) || (m.owner == Some(me) && n.m.owner == None)
  {
  }

  lemma LocalKeepsGroups(s: State, i: nat, r: Role)
    requires GroupsOk(s) && Enabled(s, Local(i, r))
    ensures GroupsOk(LocalApply(s, i, r)) && StageOf(LocalApply(s, i, r).groups[i]) == StageOf(s.groups[i])
  {
    var s' := LocalApply(s, i, r);
    var m := SharedOf(s, i);
    StepKeepsGroup(s.groups[i], m, r, i, s.inversions);
    StepMovesOn(ThreadOf(s.groups[i], r), m, r, Worker(i, r), s.inversions);
    FreesOwn(ThreadOf(s.groups[i], r), m, r, Worker(i, r), s.inversions);
    forall j | 0 <= j < |s'.groups|
      ensures GroupOk(s'.groups[j], SharedOf(s', j), j, s.inversions)
    {
      if j != i {
        GroupStable(s.groups[j], SharedOf(s, j), SharedOf(s', j), j, s.inversions);
      }
    }
  }

  lemma LocalKeepsStages(s: State, i: nat, r: Role)
    requires i < |s.groups| && InStep(s) && StageOf(LocalApply(s, i, r).groups[i]) == StageOf(s.groups[i])
    ensures InStep(LocalApply(s, i, r))
  {
  }

  lemma LocalKeepsInv(s: State, i: nat, r: Role)
    requires Inv(s) && Enabled(s, Local(i, r))
    ensures Inv(Apply(s, Local(i, r)))
  {
    LocalKeepsGroups(s, i, r);
    LocalKeepsStages(s, i, r);
    LocalKeepsMain(s, i, r);
  }

  lemma PassKeepsGroups(s: State, i: nat, b: Barrier, serial: Role)
    requires GroupsOk(s) && Enabled(s, Pass(i, b, serial))
    ensures var s' := s.(groups := s.groups[i := PassStep(s.groups[i], b, serial)]);
            && GroupsOk(s') && StageOf(s'.groups[i]) != Fresh && StageOf(s'.groups[i]) != Gone
            && StageOf(s.groups[i]) != Fresh && StageOf(s.groups[i]) != Gone
  {
    var s' := s.(groups := s.groups[i := PassStep(s.groups[i], b, serial)]);
    PassKeepsGroup(s.groups[i], b, serial, SharedOf(s, i), i, s.inversions);
    forall j | 0 <= j < |s'.groups| ensures GroupOk(s'.groups[j], SharedOf(s', j), j, s.inversions) {
      assert j != i ==> SharedOf(s', j) == SharedOf(s, j);
    }
  }

  lemma PassKeepsInv(s: State, i: nat, b: Barrier, serial: Role)
    requires Inv(s) && Enabled(s, Pass(i, b, serial))
    ensures Inv(Apply(s, Pass(i, b, serial)))
  {
    PassKeepsGroups(s, i, b, serial);
  }

  /** Main changes nothing of the groups, and takes or frees shutdown_mtx for itself only. */
  predicate MainMoved(s: State, s': State) {
    && s'.groups == s.groups && s'.inversions == s.inversions && (s.shutdown ==> s'.shutdown)
    && (s'.owner == s.owner || (s.owner == None && s'.owner == Some(MainThread))
        || (s.owner == Some(MainThread) && s'.owner == None))
  }

  lemma MainMoves(s: State, expired: bool)
    requires MainOk(s) && Enabled(s, MainStep(expired))
    ensures MainMoved(s, MainApply(s, expired)) && MainOk(MainApply(s, expired))
    ensures s.main != MainWait(Ready) && s.main != MainExited
    ensures MainApply(s, expired).main != MainWait(Ready) && MainApply(s, expired).main != MainExited
  {
  }

  lemma MainKeepsGroups(s: State, s': State)
    requires GroupsOk(s) && MainMoved(s, s')
    ensures GroupsOk(s')
  {
    forall j | 0 <= j < |s'.groups|
      ensures GroupOk(s'.groups[j], SharedOf(s', j), j, s.inversions)
    {
      GroupStable(s.groups[j], SharedOf(s, j), SharedOf(s', j), j, s.inversions);
    }
  }

  lemma MainKeepsInv(s: State, expired: bool)
    requires Inv(s) && Enabled(s, MainStep(expired))
    ensures Inv(Apply(s, MainStep(expired)))
  {
    MainMoves(s, expired);
    MainKeepsGroups(s, MainApply(s, expired));
  }

  /** A global barrier passes only when every thread of every group is in it. */
  lemma {:induction false} EverybodyWaits(groups: seq<Group>, b: Barrier)
    ensures TotalWaiting(groups, b) <= 3 * |groups|
    ensures TotalWaiting(groups, b) == 3 * |groups| <==>
            forall i :: 0 <= i < |groups| ==> AllAt(groups[i], Wait(b))
  {
    if groups != [] {
      EverybodyWaits(groups[1..], b);
      assert forall i :: 0 < i < |groups| ==> groups[i] == groups[1..][i - 1];
      assert Waiting(groups[0], b) == 3 <==> AllAt(groups[0], Wait(b));
    }
  }

  lemma ReadyReleases(g: Group, m: Shared, i: nat, inversions: int)
    requires GroupOk(g, m, i, inversions) && AllAt(g, Wait(Ready))
    ensures var g' := ReleaseAll(g, Ready, Low); GroupOk(g', m, i, inversions) && StageOf(g') == Between
  {
  }

  lemma DoneReleases(g: Group, m: Shared, i: nat, inversions: int)
    requires GroupOk(g, m, i, inversions) && AllAt(g, Wait(Done))
    ensures var g' := ReleaseAll(g, Done, Low); GroupOk(g', m, i, inversions) && StageOf(g') == Gone
  {
    var g' := ReleaseAll(g, Done, Low);
    assert g' == Group(g.low.(pc := Exited), g.med.(pc := Exited), g.high.(pc := Exited), g.vars);
    assert StageOf(g) == Between && StageOf(g') == Gone && Completed(g') == Completed(g);
  }

  lemma PassReadyKeepsGroups(s: State)
    requires GroupsOk(s) && forall i :: 0 <= i < |s.groups| ==> AllAt(s.groups[i], Wait(Ready))
    ensures var s' := s.(groups := ReleaseGroups(s.groups, Ready), main := PollLock);
            GroupsOk(s') && forall i :: 0 <= i < |s.groups| ==> StageOf(s'.groups[i]) == Between
  {
    var s' := s.(groups := ReleaseGroups(s.groups, Ready), main := PollLock);
    forall i | 0 <= i < |s.groups|
      ensures GroupOk(s'.groups[i], SharedOf(s', i), i, s.inversions) && StageOf(s'.groups[i]) == Between
    {
      assert s'.groups[i] == ReleaseAll(s.groups[i], Ready, Low);
      ReadyReleases(s.groups[i], SharedOf(s, i), i, s.inversions);
    }
  }

  lemma PassReadyKeepsInv(s: State)
    requires Inv(s) && Enabled(s, PassReady)
    ensures Inv(Apply(s, PassReady))
  {
    EverybodyWaits(s.groups, Ready);
    PassReadyKeepsGroups(s);
  }

  lemma PassDoneKeepsGroups(s: State)
    requires GroupsOk(s) && forall i :: 0 <= i < |s.groups| ==> AllAt(s.groups[i], Wait(Done))
    ensures var s' := s.(groups := ReleaseGroups(s.groups, Done), main := MainExited);
            GroupsOk(s') && forall i :: 0 <= i < |s.groups| ==> StageOf(s'.groups[i]) == Gone
  {
    var s' := s.(groups := ReleaseGroups(s.groups, Done), main := MainExited);
    forall i | 0 <= i < |s.groups|
      ensures GroupOk(s'.groups[i], SharedOf(s', i), i, s.inversions) && StageOf(s'.groups[i]) == Gone
    {
      assert s'.groups[i] == ReleaseAll(s.groups[i], Done, Low);
      DoneReleases(s.groups[i], SharedOf(s, i), i, s.inversions);
    }
  }

  lemma PassDoneKeepsInv(s: State)
    requires Inv(s) && Enabled(s, PassDone)
    ensures Inv(Apply(s, PassDone))
  {
    EverybodyWaits(s.groups, Done);
    PassDoneKeepsGroups(s);
  }

  lemma StepKeepsInv(s: State, a: Action)
    requires Inv(s) && Enabled(s, a)
    ensures Inv(Apply(s, a)) && Apply(s, a).inversions == s.inversions
    ensures |Apply(s, a).groups| == |s.groups| && (s.shutdown ==> Apply(s, a).shutdown)
  {
    match a
    case Local(i, r) =>
      LocalKeepsInv(s, i, r);
      StepMovesOn(ThreadOf(s.groups[i], r), SharedOf(s, i), r, Worker(i, r), s.inversions);
    case Pass(i, b, serial) => PassKeepsInv(s, i, b, serial);
    case PassReady => PassReadyKeepsInv(s);
    case PassDone => PassDoneKeepsInv(s);
    case MainStep(expired) => MainKeepsInv(s, expired);
  }

  lemma {:induction false} RunKeepsInv(s: State, actions: seq<Action>)
    requires Inv(s) && IsRun(s, actions)
    ensures var e := RunEnd(s, actions);
            Inv(e) && e.inversions == s.inversions && |e.groups| == |s.groups| && (s.shutdown ==> e.shutdown)
    decreases |actions|
  {
    if actions != [] {
      StepKeepsInv(s, actions[0]);
      RunKeepsInv(Apply(s, actions[0]), actions[1..]);
    }
  }

  // ---------------------------------------------------------------- safety over every run

  /** The state some run from the start leads to. */
  ghost predicate Reachable(s: State, ngroups: nat, inversions: int) {
    exists actions :: IsRun(Init(ngroups, inversions), actions) && s == RunEnd(Init(ngroups, inversions), actions)
  }

  lemma ReachableInv(s: State, ngroups: nat, inversions: int)
    requires Reachable(s, ngroups, inversions)
    ensures Inv(s) && |s.groups| == ngroups && s.inversions == inversions
  {
    InitInv(ngroups, inversions);
    var actions :| IsRun(Init(ngroups, inversions), actions) && s == RunEnd(Init(ngroups, inversions), actions);
    RunKeepsInv(Init(ngroups, inversions), actions);
  }

  predicate LeftLoop(pc: Pc) {
    LeavingPc(pc) || pc == Exited
  }

  lemma SeenAgree(a: Pc, b: Pc, stage: Stage, completed: nat, loop: bool, k: nat)
    requires k < |ExpectedSeen(a, stage, completed, loop)| && k < |ExpectedSeen(b, stage, completed, loop)|
    ensures ExpectedSeen(a, stage, completed, loop)[k] == ExpectedSeen(b, stage, completed, loop)[k]
  {
  }

  lemma SeenTellsBetween(g: Group, r: Role)
    requires StageOf(g) == Between && BetweenOk(g) && SeenOk(g, Between)
    ensures var a := ThreadOf(g, r);
            && (LeftLoop(a.pc) <==> |a.seen| > 0 && !a.seen[|a.seen| - 1])
            && (LeftLoop(a.pc) ==> |a.seen| == Completed(g) + 1 && !g.vars.loop)
            && (At(a.pc, Loop) ==> g.vars.loop)
  {
    assert BetweenPc(r, PcOf(g, r), g.vars.loop);
    assert ThreadOf(g, r).seen == ExpectedSeen(PcOf(g, r), Between, Completed(g), g.vars.loop);
  }

  lemma SeenTellsInside(g: Group, shutdown: bool, r: Role)
    requires StageOf(g) != Between && StageOk(g, StageOf(g), shutdown) && SeenOk(g, StageOf(g))
    ensures var a := ThreadOf(g, r);
            && (LeftLoop(a.pc) <==> StageOf(g) == Gone)
            && (LeftLoop(a.pc) <==> |a.seen| > 0 && !a.seen[|a.seen| - 1])
            && (LeftLoop(a.pc) ==> |a.seen| == Completed(g) + 1 && !g.vars.loop)
            && !At(a.pc, Loop)
  {
    assert ThreadOf(g, r).seen == ExpectedSeen(PcOf(g, r), StageOf(g), Completed(g), g.vars.loop);
  }

  lemma SeenTells(g: Group, shutdown: bool, r: Role)
    requires StageOk(g, StageOf(g), shutdown) && SeenOk(g, StageOf(g))
    ensures var a := ThreadOf(g, r);
            && a.seen == ExpectedSeen(a.pc, StageOf(g), Completed(g), g.vars.loop)
            && (LeftLoop(a.pc) <==> |a.seen| > 0 && !a.seen[|a.seen| - 1])
            && (LeftLoop(a.pc) ==> |a.seen| == Completed(g) + 1 && !g.vars.loop)
            && (At(a.pc, Loop) ==> g.vars.loop)
  {
    if StageOf(g) == Between {
      SeenTellsBetween(g, r);
    } else {
      SeenTellsInside(g, shutdown, r);
    }
  }

  predicate AgreeOnLoop(a: Thread, b: Thread) {
    && (forall k :: 0 <= k < |a.seen| && k < |b.seen| ==> a.seen[k] == b.seen[k])
    && (LeftLoop(a.pc) <==> |a.seen| > 0 && !a.seen[|a.seen| - 1])
    && (LeftLoop(a.pc) && LeftLoop(b.pc) ==> |a.seen| == |b.seen|)
    && (LeftLoop(a.pc) ==> !At(b.pc, Loop))
  }

  lemma GroupAgrees(g: Group, shutdown: bool, p: Role, q: Role)
    requires StageOk(g, StageOf(g), shutdown) && SeenOk(g, StageOf(g))
    ensures AgreeOnLoop(ThreadOf(g, p), ThreadOf(g, q))
  {
    SeenTells(g, shutdown, p);
    SeenTells(g, shutdown, q);
    var a, b := ThreadOf(g, p), ThreadOf(g, q);
    forall k | 0 <= k < |a.seen| && k < |b.seen| ensures a.seen[k] == b.seen[k] {
      SeenAgree(a.pc, b.pc, StageOf(g), Completed(g), g.vars.loop, k);
    }
  }

  /** All three threads of a group go on to the loop barrier, or none does: whatever the
      interleaving and the serial threads, the k-th value of `loop` that two threads of a group
      read is the same, and threads that have left their loop left it in the same round, the
      only one in which they read false. */
  lemma LoopAgreement(s: State, ngroups: nat, inversions: int, i: nat, p: Role, q: Role)
    requires Reachable(s, ngroups, inversions) && i < ngroups
    ensures i < |s.groups|
    ensures AgreeOnLoop(ThreadOf(s.groups[i], p), ThreadOf(s.groups[i], q))
  {
    ReachableInv(s, ngroups, inversions);
    GroupAgrees(s.groups[i], s.shutdown, p, q);
  }
}
