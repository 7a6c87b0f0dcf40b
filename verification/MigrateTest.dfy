/**
 The migration test's rounds: main and any number of tasks go through a start and an end
 barrier together; between them every task records its times for the round.
 */
module MigrateTest {

  datatype TaskPc =
    | Top        // about to test `done`
    | AtStart    // waits at the start barrier
    | Started
    | Recording  // past the test of `loop` against `nr_runs`
    | AtEnd      // waits at the end barrier
    | Exited

  datatype MainPc =
    | LoopTest
    | WaitStart
    | InRound
    | WaitEnd
    | RoundOver      // past the end barrier, about to test `stop`
    | LastArrive     // past the loop
    | LastWaitStart
    | LastRound      // about to set `done`
    | LastWaitEnd
    | Joining

  /** `cells` has, for each table cell, the values of `now` its writes were relative to, and
      `nows` the value of `now` of each round. `size` is the number of rows allocated. */
  datatype State = State(size: nat, nrRuns: nat, loop: nat, now: int, done: bool,
                         cells: map<(nat, nat), seq<int>>, nows: seq<int>,
                         tasks: seq<TaskPc>, main: MainPc)

  datatype Action = Task(id: nat) | Main(time: int, stop: bool) | StartBarrier | EndBarrier

  function Init(runs: nat, tasks: nat): State {
    State(runs, runs, 0, 0, false, map[], [], seq(tasks, _ => Top), LoopTest)
  }

  function Cell(s: State, l: nat, id: nat): seq<int> {
    if (l, id) in s.cells then s.cells[(l, id)] else []
  }

  predicate AllAt(s: State, p: TaskPc) {
    forall t :: 0 <= t < |s.tasks| ==> s.tasks[t] == p
  }

  /** A barrier lets everybody pass when all the tasks and main have arrived. */
  predicate Enabled(s: State, a: Action) {
    match a
    case Task(id) => id < |s.tasks| && !s.tasks[id].AtStart? && !s.tasks[id].AtEnd? && !s.tasks[id].Exited?
    case Main(_, _) => !s.main.WaitStart? && !s.main.WaitEnd? && !s.main.LastWaitStart? && !s.main.LastWaitEnd? && !s.main.Joining?
    case StartBarrier => AllAt(s, AtStart) && (s.main.WaitStart? || s.main.LastWaitStart?)
    case EndBarrier => AllAt(s, AtEnd) && (s.main.WaitEnd? || s.main.LastWaitEnd?)
  }

  function At(s: State, id: nat, p: TaskPc): State
    requires id < |s.tasks|
  {
    s.(tasks := s.tasks[id := p])
  }

  function All(n: nat, p: TaskPc): seq<TaskPc> {
    seq(n, _ => p)
  }

  function TaskStep(s: State, id: nat): State
    requires Enabled(s, Task(id))
  {
    match s.tasks[id]
    case Top => At(s, id, if s.done then Exited else AtStart)
    case Started => At(s, id, if s.loop >= s.nrRuns then AtEnd else Recording)
    case Recording => At(s, id, AtEnd).(cells := s.cells[(s.loop, id) := Cell(s, s.loop, id) + [s.now]])
    case _ => s
  }

  function MainStep(s: State, time: int, stop: bool): State
    requires Enabled(s, Main(time, stop))
  {
    match s.main
    case LoopTest =>
      if s.loop < s.nrRuns then s.(now := time, nows := s.nows + [time], main := WaitStart) else s.(main := LastWaitStart)
    case InRound => s.(main := WaitEnd)
    case RoundOver =>
      if stop then s.(loop := s.loop + 1, nrRuns := s.loop + 1, main := LastArrive)
      else s.(loop := s.loop + 1, main := LoopTest)
    case LastArrive => s.(main := LastWaitStart)
    case LastRound => s.(done := true, main := LastWaitEnd)
    case _ => s
  }

  function Apply(s: State, a: Action): State
    requires Enabled(s, a)
  {
    match a
    case Task(id) => TaskStep(s, id)
    case Main(time, stop) => MainStep(s, time, stop)
    case StartBarrier =>
      s.(tasks := All(|s.tasks|, Started), main := if s.main.WaitStart? then InRound else LastRound)
    case EndBarrier =>
      s.(tasks := All(|s.tasks|, Top), main := if s.main.WaitEnd? then RoundOver else Joining)
  }

  predicate IsRun(s: State, actions: seq<Action>)
    decreases |actions|
  {
    actions == [] || (Enabled(s, actions[0]) && IsRun(Apply(s, actions[0]), actions[1..]))
  }

  function RunEnd(s: State, actions: seq<Action>): State
    requires IsRun(s, actions)
    decreases |actions|
  {
    if actions == [] then s else RunEnd(Apply(s, actions[0]), actions[1..])
  }

  // ---------------------------------------------------------------- invariant

  /** Main is between the start barrier and the end barrier. */
  predicate Inside(m: MainPc) { m.InRound? || m.WaitEnd? || m.LastRound? || m.LastWaitEnd? }

  predicate InLastRound(m: MainPc) { m.LastArrive? || m.LastWaitStart? || m.LastRound? || m.LastWaitEnd? || m.Joining? }

  predicate TaskFits(p: TaskPc, m: MainPc) {
    if Inside(m) then p.Started? || p.AtEnd? || (p.Recording? && !InLastRound(m))
    else if m.Joining? then p.Top? || p.Exited?
    else p.Top? || p.AtStart?
  }

  predicate TasksFit(s: State) {
    forall t :: 0 <= t < |s.tasks| ==> TaskFits(s.tasks[t], s.main)
  }

  /** The rounds that are over. */
  function Over(s: State): nat {
    if s.main.RoundOver? then s.loop + 1 else s.loop
  }

  predicate MainFits(s: State) {
    && s.done == (s.main.LastWaitEnd? || s.main.Joining?)
    && s.loop <= s.nrRuns <= s.size
    && (s.main.WaitStart? || s.main.InRound? || s.main.WaitEnd? || s.main.RoundOver? ==>
          s.loop < s.nrRuns && |s.nows| == s.loop + 1 && s.nows[s.loop] == s.now)
    && (s.main.LoopTest? ==> |s.nows| == s.loop)
    && (InLastRound(s.main) ==> |s.nows| == s.loop == s.nrRuns)
  }

  /** The task has written its cell of the current round. */
  predicate HasWritten(s: State, id: nat)
    requires id < |s.tasks|
  {
    (s.main.InRound? || s.main.WaitEnd?) && s.tasks[id].AtEnd?
  }

  /** One write for every round that is over and for the current one if it is done, relative to
      that round's `now`; none anywhere else. */
  predicate CellFits(s: State, l: nat, id: nat) {
    Cell(s, l, id) ==
      if id < |s.tasks| && l < |s.nows| && (l < Over(s) || (l == s.loop && HasWritten(s, id))) then [s.nows[l]] else []
  }

  ghost predicate CellsFit(s: State) {
    forall l: nat, id: nat :: CellFits(s, l, id)
  }

  ghost predicate Inv(s: State) {
    TasksFit(s) && MainFits(s) && CellsFit(s)
  }

  lemma FitsKept(s: State, a: Action)
    requires Enabled(s, a) && TasksFit(s) && MainFits(s)
    ensures TasksFit(Apply(s, a)) && MainFits(Apply(s, a))
  {
  }

  lemma CellKept(s: State, a: Action, l: nat, id: nat)
    requires Enabled(s, a) && TasksFit(s) && MainFits(s) && CellFits(s, l, id)
    ensures CellFits(Apply(s, a), l, id)
  {
  }

  lemma InvKept(s: State, a: Action)
    requires Enabled(s, a) && Inv(s)
    ensures Inv(Apply(s, a))
  {
    FitsKept(s, a);
    forall l: nat, id: nat ensures CellFits(Apply(s, a), l, id) {
      CellKept(s, a, l, id);
    }
  }

  lemma {:induction false} RunInv(s: State, actions: seq<Action>)
    requires Inv(s) && IsRun(s, actions)
    ensures Inv(RunEnd(s, actions))
    ensures |RunEnd(s, actions).tasks| == |s.tasks| && RunEnd(s, actions).size == s.size
    decreases |actions|
  {
    if actions != [] {
      InvKept(s, actions[0]);
      RunInv(Apply(s, actions[0]), actions[1..]);
    }
  }

  predicate AllExited(s: State) {
    s.main.Joining? && AllAt(s, Exited)
  }

  /** In every state of every run each cell has been written at most once, with the `now` of
      its own round, and inside the tables; when all have exited, exactly the cells of the
      final number of rounds have been written, and the last round recorded nothing. */
  lemma EachCellOnce(runs: nat, tasks: nat, actions: seq<Action>, l: nat, id: nat)
    requires IsRun(Init(runs, tasks), actions)
    ensures var s := RunEnd(Init(runs, tasks), actions);
            && s.nrRuns <= runs && |s.nows| <= runs
            && (Cell(s, l, id) == [] || (l < |s.nows| && id < tasks && Cell(s, l, id) == [s.nows[l]]))
            && (AllExited(s) ==> |s.nows| == s.nrRuns && (Cell(s, l, id) != [] <==> l < s.nrRuns && id < tasks))
  {
    var s0 := Init(runs, tasks);
    RunInv(s0, actions);
    var s := RunEnd(s0, actions);
    assert CellFits(s, l, id);
  }

  lemma {:induction false} RunsKept(s: State, actions: seq<Action>)
    requires IsRun(s, actions) && forall i :: 0 <= i < |actions| ==> actions[i].Main? ==> !actions[i].stop
    ensures RunEnd(s, actions).nrRuns == s.nrRuns
    decreases |actions|
  {
    if actions != [] {
      RunsKept(Apply(s, actions[0]), actions[1..]);
    }
  }

  /** Without a stop, the tables are complete when all tasks have exited. */
  lemma CompleteWithoutStop(runs: nat, tasks: nat, actions: seq<Action>, l: nat, id: nat)
    requires IsRun(Init(runs, tasks), actions) && AllExited(RunEnd(Init(runs, tasks), actions))
    requires forall i :: 0 <= i < |actions| ==> actions[i].Main? ==> !actions[i].stop
    ensures |Cell(RunEnd(Init(runs, tasks), actions), l, id)| == if l < runs && id < tasks then 1 else 0
  {
    RunsKept(Init(runs, tasks), actions);
    EachCellOnce(runs, tasks, actions, l, id);
  }

  // ---------------------------------------------------------------- stopping

  /** The last round changes neither the number of rounds nor the tables. */
  predicate SameRecord(s: State, s': State) {
    s'.nrRuns == s.nrRuns && s'.loop == s.loop && s'.nows == s.nows && s'.cells == s.cells
  }

  lemma LastRoundStep(s: State, a: Action)
    requires TasksFit(s) && MainFits(s) && InLastRound(s.main) && Enabled(s, a)
    ensures InLastRound(Apply(s, a).main) && SameRecord(s, Apply(s, a))
  {
  }

  lemma {:induction false} LastRoundRun(s: State, actions: seq<Action>)
    requires Inv(s) && InLastRound(s.main) && IsRun(s, actions)
    ensures InLastRound(RunEnd(s, actions).main) && SameRecord(s, RunEnd(s, actions))
    decreases |actions|
  {
    if actions != [] {
      LastRoundStep(s, actions[0]);
      InvKept(s, actions[0]);
      LastRoundRun(Apply(s, actions[0]), actions[1..]);
    }
  }

  /** A stop noticed at the end of round l ends the loop there: in every run from then on the
      number of rounds is l + 1, no further round gets a `now`, and exactly the rows up to l
      are written. */
  lemma StopTakesEffect(runs: nat, tasks: nat, before: seq<Action>, time: int, after: seq<Action>, l: nat, id: nat)
    requires IsRun(Init(runs, tasks), before) && RunEnd(Init(runs, tasks), before).main == RoundOver
    requires IsRun(Apply(RunEnd(Init(runs, tasks), before), Main(time, true)), after)
    ensures var s := RunEnd(Init(runs, tasks), before);
            var e := RunEnd(Apply(s, Main(time, true)), after);
            && e.nrRuns == s.loop + 1 && |e.nows| == s.loop + 1 && InLastRound(e.main)
            && (Cell(e, l, id) == if l <= s.loop && id < tasks then [e.nows[l]] else [])
  {
    RunInv(Init(runs, tasks), before);
    var s := RunEnd(Init(runs, tasks), before);
    var s' := Apply(s, Main(time, true));
    InvKept(s, Main(time, true));
    LastRoundRun(s', after);
    RunInv(s', after);
    assert CellFits(RunEnd(s', after), l, id);
  }

  // ---------------------------------------------------------------- the times of the rounds

  /** The times main has read at the beginning of its rounds. */
  function TimesRead(s: State, actions: seq<Action>): seq<int>
    requires IsRun(s, actions)
    decreases |actions|
  {
    if actions == [] then []
    else
      (if actions[0].Main? && s.main == LoopTest && s.loop < s.nrRuns then [actions[0].time] else [])
      + TimesRead(Apply(s, actions[0]), actions[1..])
  }

  /** Each round's `now` is the time main read at its beginning. */
  lemma {:induction false} NowsAreTimes(s: State, actions: seq<Action>)
    requires IsRun(s, actions)
    ensures RunEnd(s, actions).nows == s.nows + TimesRead(s, actions)
    decreases |actions|
  {
    if actions != [] {
      NowsAreTimes(Apply(s, actions[0]), actions[1..]);
    }
  }

  /** A task exits only after everybody has passed the end barrier of the last round: all
      tasks see `done` together. */
  lemma ExitTogether(runs: nat, tasks: nat, actions: seq<Action>, t: nat, u: nat)
    requires IsRun(Init(runs, tasks), actions)
    requires var n := |RunEnd(Init(runs, tasks), actions).tasks|; t < n && u < n
    requires RunEnd(Init(runs, tasks), actions).tasks[t].Exited?
    ensures var s := RunEnd(Init(runs, tasks), actions);
            s.done && s.main.Joining? && (s.tasks[u].Top? || s.tasks[u].Exited?)
  {
    RunInv(Init(runs, tasks), actions);
    var s := RunEnd(Init(runs, tasks), actions);
    assert TaskFits(s.tasks[t], s.main) && TaskFits(s.tasks[u], s.main);
  }

  // ---------------------------------------------------------------- progress

  /** When no task can move, all stand at the place main waits for. */
  lemma TasksWait(s: State)
    requires TasksFit(s) && forall t :: 0 <= t < |s.tasks| ==> !Enabled(s, Task(t))
    ensures AllAt(s, if s.main.Joining? then Exited else if Inside(s.main) then AtEnd else AtStart)
  {
    forall t | 0 <= t < |s.tasks|
      ensures s.tasks[t] == if s.main.Joining? then Exited else if Inside(s.main) then AtEnd else AtStart
    {
      assert !Enabled(s, Task(t)) && TaskFits(s.tasks[t], s.main);
    }
  }

  /** Somebody can always take a step until all tasks have exited: no task is left at a
      barrier. */
  lemma NoDeadlock(runs: nat, tasks: nat, actions: seq<Action>)
    requires IsRun(Init(runs, tasks), actions)
    ensures var s := RunEnd(Init(runs, tasks), actions);
            AllExited(s) || exists a :: Enabled(s, a)
  {
    RunInv(Init(runs, tasks), actions);
    var s := RunEnd(Init(runs, tasks), actions);
    if forall a :: !Enabled(s, a) {
      TasksWait(s);
      assert !Enabled(s, Main(0, false)) && !Enabled(s, StartBarrier) && !Enabled(s, EndBarrier);
    }
  }

  // ---------------------------------------------------------------- termination

  function Weight(p: TaskPc): nat {
    match p
    case Top => 4
    case AtStart => 3
    case Started => 2
    case Recording => 1
    case _ => 0
  }

  function MainWeight(m: MainPc): nat {
    match m
    case RoundOver => 5
    case LoopTest => 4
    case LastArrive => 4
    case WaitStart => 3
    case LastWaitStart => 3
    case InRound => 2
    case LastRound => 2
    case WaitEnd => 1
    case LastWaitEnd => 1
    case Joining => 0
  }

  function Total(tasks: seq<TaskPc>): nat {
    if tasks == [] then 0 else Weight(tasks[0]) + Total(tasks[1..])
  }

  /** How often the end barrier will still be passed, if nothing stops the loop early. */
  function RoundsLeft(s: State): nat
    requires MainFits(s)
  {
    if s.main.Joining? then 0
    else if InLastRound(s.main) then 1
    else if s.main.RoundOver? then s.nrRuns - s.loop
    else s.nrRuns - s.loop + 1
  }

  function Lap(tasks: nat): nat { 4 * tasks + 5 }

  function Times(rounds: nat, lap: nat): nat {
    if rounds == 0 then 0 else lap + Times(rounds - 1, lap)
  }

  /** A bound on the number of steps still to come. */
  function Budget(s: State): nat
    requires MainFits(s)
  {
    Times(RoundsLeft(s), Lap(|s.tasks|)) + Total(s.tasks) + MainWeight(s.main)
  }

  lemma {:induction false} TimesLess(rounds: nat, fewer: nat, lap: nat)
    requires fewer <= rounds
    ensures Times(fewer, lap) <= Times(rounds, lap)
    ensures fewer < rounds ==> Times(fewer, lap) + lap <= Times(rounds, lap)
  {
    if fewer < rounds {
      TimesLess(rounds - 1, fewer, lap);
    }
  }

  lemma {:induction false} TotalUpdate(tasks: seq<TaskPc>, t: nat, p: TaskPc)
    requires t < |tasks|
    ensures Total(tasks[t := p]) + Weight(tasks[t]) == Total(tasks) + Weight(p)
  {
    if t > 0 {
      TotalUpdate(tasks[1..], t - 1, p);
      assert tasks[t := p][1..] == tasks[1..][t - 1 := p];
    } else {
      assert tasks[t := p][1..] == tasks[1..];
    }
  }

  lemma {:induction false} TotalAll(tasks: seq<TaskPc>, p: TaskPc)
    requires forall t :: 0 <= t < |tasks| ==> tasks[t] == p
    ensures p.Top? ==> Total(tasks) == 4 * |tasks|
    ensures p.AtStart? ==> Total(tasks) == 3 * |tasks|
    ensures p.Started? ==> Total(tasks) == 2 * |tasks|
    ensures p.AtEnd? ==> Total(tasks) == 0
  {
    if tasks != [] {
      TotalAll(tasks[1..], p);
    }
  }

  lemma TaskSpends(s: State, id: nat)
    requires Enabled(s, Task(id)) && MainFits(s) && MainFits(TaskStep(s, id))
    ensures Budget(TaskStep(s, id)) < Budget(s)
  {
    TotalUpdate(s.tasks, id, TaskStep(s, id).tasks[id]);
  }

  lemma MainSpends(s: State, time: int, stop: bool)
    requires Enabled(s, Main(time, stop)) && MainFits(s) && MainFits(MainStep(s, time, stop))
    ensures Budget(MainStep(s, time, stop)) < Budget(s)
  {
    TimesLess(RoundsLeft(s), RoundsLeft(MainStep(s, time, stop)), Lap(|s.tasks|));
  }

  lemma BarrierSpends(s: State, a: Action)
    requires (a.StartBarrier? || a.EndBarrier?) && Enabled(s, a) && MainFits(s) && MainFits(Apply(s, a))
    ensures Budget(Apply(s, a)) < Budget(s)
  {
    TimesLess(RoundsLeft(s), RoundsLeft(Apply(s, a)), Lap(|s.tasks|));
    TotalAll(s.tasks, if a.StartBarrier? then AtStart else AtEnd);
    TotalAll(Apply(s, a).tasks, if a.StartBarrier? then Started else Top);
  }

  lemma {:induction false} RunSpends(s: State, actions: seq<Action>)
    requires Inv(s) && IsRun(s, actions)
    ensures MainFits(RunEnd(s, actions)) && |actions| + Budget(RunEnd(s, actions)) <= Budget(s)
    decreases |actions|
  {
    if actions != [] {
      var a := actions[0];
      InvKept(s, a);
      match a {
        case Task(id) => TaskSpends(s, id);
        case Main(time, stop) => MainSpends(s, time, stop);
        case StartBarrier => BarrierSpends(s, a);
        case EndBarrier => BarrierSpends(s, a);
      }
      RunSpends(Apply(s, a), actions[1..]);
    }
  }

  /** Every run is finite, and a run that cannot go on has all tasks exited. */
  lemma AllRunsEnd(runs: nat, tasks: nat, actions: seq<Action>)
    requires IsRun(Init(runs, tasks), actions)
    ensures |actions| <= Times(runs + 1, Lap(tasks)) + 4 * tasks + 4
    ensures (forall a :: !Enabled(RunEnd(Init(runs, tasks), actions), a)) ==> AllExited(RunEnd(Init(runs, tasks), actions))
  {
    var s := Init(runs, tasks);
    RunSpends(s, actions);
    TotalAll(s.tasks, Top);
    NoDeadlock(runs, tasks, actions);
  }
}
