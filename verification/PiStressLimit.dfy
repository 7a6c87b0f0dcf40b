/**
 With a limit on the number of inversions every run of the pi_stress groups is finite, from the
 very start and whatever main does.
 */
module PiStressLimit {
  import opened PiStress
  import opened PiStressInvariant
  import opened PiStressSystem
  import opened PiStressTermination

  /** How far a group is from its end when no more than `limit` rounds can be completed. */
  function Distance(g: Group, limit: nat): int {
    80 * (limit - Completed(g)) + RankSum(g)
  }

  function Distances(groups: seq<Group>, limit: nat): int {
    if groups == [] then 0 else Distance(groups[0], limit) + Distances(groups[1..], limit)
  }

  /** How many of the two global barriers have still to pass. */
  function GlobalsLeft(main: MainPc): nat {
    if main == MainWait(Ready) then 2 else if main == MainExited then 0 else 1
  }

  function Remaining(s: State, limit: nat): int {
    Distances(s.groups, limit) + GlobalsLeft(s.main)
  }

  lemma {:induction false} DistancesUpdate(groups: seq<Group>, i: nat, g: Group, limit: nat)
    requires i < |groups|
    ensures Distances(groups[i := g], limit) == Distances(groups, limit) - Distance(groups[i], limit) + Distance(g, limit)
  {
    if i > 0 {
      assert groups[i := g][1..] == groups[1..][i - 1 := g];
      DistancesUpdate(groups[1..], i - 1, g, limit);
    } else {
      assert groups[i := g][1..] == groups[1..];
    }
  }

  lemma CompletedInLimit(g: Group, m: Shared, i: nat, inversions: int)
    requires GroupOk(g, m, i, inversions) && inversions >= 0
    ensures Completed(g) <= inversions + 1
  {
    match StageOf(g)
    case Checking => assert g.high.pc != Bump;
    case Inverting => assert g.high.pc != Bump;
    case _ =>
  }

  lemma {:induction false} DistancesNatural(groups: seq<Group>, limit: nat)
    requires forall i :: 0 <= i < |groups| ==> Completed(groups[i]) <= limit
    ensures Distances(groups, limit) >= 0
  {
    if groups != [] {
      assert forall i :: 0 <= i < |groups[1..]| ==> groups[1..][i] == groups[i + 1];
      DistancesNatural(groups[1..], limit);
    }
  }

  lemma LocalCloser(g: Group, m: Shared, r: Role, i: nat, inversions: int, limit: nat)
    requires GroupOk(g, m, i, inversions) && ThreadEnabled(PcOf(g, r), m)
    ensures var (g', m') := GroupStep(g, m, r, i, inversions); Distance(g', limit) < Distance(g, limit)
  {
    CompletedStays(g, m, r, i, inversions);
    StepRank(ThreadOf(g, r), m, r, Worker(i, r), inversions);
  }

  lemma RankReleased(t: Thread, r: Role, b: Barrier, serial: Role)
    requires b != Finish
    ensures Rank(r, Released(t, r, b, serial).pc) <= Rank(r, t.pc)
    ensures t.pc == Wait(b) ==> Rank(r, Released(t, r, b, serial).pc) < Rank(r, t.pc)
  {
  }

  lemma ReleaseCloser(g: Group, b: Barrier, serial: Role)
    requires b != Finish
    ensures RankSum(ReleaseAll(g, b, serial)) <= RankSum(g) - Waiting(g, b)
  {
    RankReleased(g.low, Low, b, serial);
    RankReleased(g.med, Med, b, serial);
    RankReleased(g.high, High, b, serial);
  }

  lemma ReleaseCompletes(g: Group, b: Barrier, serial: Role)
    ensures Completed(ReleaseAll(g, b, serial)) == Completed(g) + if b == Finish && g.high.pc == Wait(b) then 1 else 0
  {
  }

  lemma FinishCloser(g: Group, serial: Role)
    requires AllAt(g, Wait(Finish))
    ensures RankSum(ReleaseAll(g, Finish, serial)) < RankSum(g) + 80
  {
  }

  lemma PassCloser(g: Group, b: Barrier, serial: Role, limit: nat)
    requires PassEnabled(g, b, serial)
    ensures Distance(PassStep(g, b, serial), limit) < Distance(g, limit)
  {
    ReleaseCompletes(g, b, serial);
    if b == Finish {
      FinishCloser(g, serial);
    } else {
      ReleaseCloser(g, b, serial);
    }
  }

  lemma {:induction false} GlobalCloser(groups: seq<Group>, b: Barrier, limit: nat)
    requires b == Ready || b == Done
    ensures Distances(ReleaseGroups(groups, b), limit) <= Distances(groups, limit)
  {
    if groups != [] {
      assert ReleaseGroups(groups, b)[1..] == ReleaseGroups(groups[1..], b);
      GlobalCloser(groups[1..], b, limit);
      ReleaseCompletes(groups[0], b, Low);
      ReleaseCloser(groups[0], b, Low);
    }
  }

  lemma MainKeepsGlobals(s: State, expired: bool)
    requires MainOk(s) && MainEnabled(s)
    ensures GlobalsLeft(MainApply(s, expired).main) == GlobalsLeft(s.main) && MainApply(s, expired).groups == s.groups
  {
  }

  /** Every step of the groups and of the barriers is one of finitely many; main's steps leave
      their number alone. */
  lemma StepCloser(s: State, a: Action, limit: nat)
    requires Inv(s) && Enabled(s, a)
    ensures if a.MainStep? then Remaining(Apply(s, a), limit) == Remaining(s, limit)
            else Remaining(Apply(s, a), limit) < Remaining(s, limit)
  {
    match a
    case Local(i, r) =>
      LocalCloser(s.groups[i], SharedOf(s, i), r, i, s.inversions, limit);
      DistancesUpdate(s.groups, i, Apply(s, a).groups[i], limit);
    case Pass(i, b, serial) =>
      PassCloser(s.groups[i], b, serial, limit);
      DistancesUpdate(s.groups, i, Apply(s, a).groups[i], limit);
    case PassReady =>
      EverybodyWaits(s.groups, Ready);
      GlobalCloser(s.groups, Ready, limit);
    case PassDone =>
      EverybodyWaits(s.groups, Done);
      GlobalCloser(s.groups, Done, limit);
    case MainStep(expired) => MainKeepsGlobals(s, expired);
  }

  /** The steps of a run that are not main's. */
  function GroupSteps(actions: seq<Action>): nat {
    if actions == [] then 0 else (if actions[0].MainStep? then 0 else 1) + GroupSteps(actions[1..])
  }

  lemma {:induction false} RunBound(s: State, actions: seq<Action>, inversions: nat)
    requires Inv(s) && s.inversions == inversions && IsRun(s, actions)
    ensures GroupSteps(actions) <= Remaining(s, inversions + 1)
    decreases |actions|
  {
    if actions == [] {
      RemainingNatural(s);
    } else {
      StepCloser(s, actions[0], inversions + 1);
      StepKeepsInv(s, actions[0]);
      RunBound(Apply(s, actions[0]), actions[1..], inversions);
    }
  }

  /** The steps one group can take in all. */
  function StepsOfGroup(inversions: nat): nat { 80 * (inversions + 1) + 114 }

  function Steps(ngroups: nat, inversions: nat): nat {
    if ngroups == 0 then 2 else StepsOfGroup(inversions) + Steps(ngroups - 1, inversions)
  }

  lemma {:induction false} InitRemaining(groups: seq<Group>, inversions: nat)
    requires forall i :: 0 <= i < |groups| ==> groups[i] == FRESH_GROUP
    ensures Distances(groups, inversions + 1) + 2 == Steps(|groups|, inversions)
  {
    if groups != [] {
      assert forall i :: 0 <= i < |groups[1..]| ==> groups[1..][i] == groups[i + 1];
      InitRemaining(groups[1..], inversions);
    }
  }

  lemma RemainingNatural(s: State)
    requires Inv(s) && s.inversions >= 0
    ensures Remaining(s, s.inversions + 1) >= 0
  {
    forall i | 0 <= i < |s.groups| ensures Completed(s.groups[i]) <= s.inversions + 1 {
      CompletedInLimit(s.groups[i], SharedOf(s, i), i, s.inversions);
    }
    DistancesNatural(s.groups, s.inversions + 1);
  }

  lemma InitSteps(ngroups: nat, inversions: nat)
    ensures Remaining(Init(ngroups, inversions), inversions + 1) == Steps(ngroups, inversions)
  {
    InitRemaining(Init(ngroups, inversions).groups, inversions);
  }

  /** With a limit on the inversions, the threads of the groups and the barriers take at most
      Steps(ngroups, inversions) steps in any run from the start, however long main polls. */
  lemma LimitedRuns(ngroups: nat, inversions: nat, actions: seq<Action>)
    requires IsRun(Init(ngroups, inversions), actions)
    ensures GroupSteps(actions) <= Steps(ngroups, inversions)
  {
    InitSteps(ngroups, inversions);
    assert GroupSteps(actions) <= Remaining(Init(ngroups, inversions), inversions + 1) by {
      InitInv(ngroups, inversions);
      RunBound(Init(ngroups, inversions), actions, inversions);
    }
  }
}
