/**
 Progress of the write-behind protocol: without new calls every schedule ends, and it can
 only end with every task returned and every queued entry in the backend.
 */
module SecretLiveness {
  import opened MsgSecrets
  import opened Options
  import opened SecretProtocol
  import opened TaskSums

  // -- The variant --

  function ToInsert(task: Task): nat {
    if task.pc.Start? && task.role.Queue? && task.role.entries != [] then 1 else 0
  }

  /** How far a task is from returning, on the way an empty or a non-empty map sends it. */
  function Distance(pc: Pc, empty: bool): nat {
    match pc
    case Done => 0
    case Cancelled => 0
    case Start => 20
    case Inserted => 19
    case Schedule => 18
    case Spawning => 17
    case Wait => if empty then 5 else 4
    case Locked => if empty then 4 else 3
    case Writing => 2
    case Written => 1
    case Wrote => 6
    case FoundNone => if empty then 3 else 9
    case Clear => if empty then 2 else 8
    case Check => if empty then 1 else 7
    case Reclaim => 6
  }

  function WeightFor(empty: bool): Task -> nat {
    (task: Task) => Distance(task.pc, empty)
  }

  /** Write rounds still needed: none when nothing is pending, two when the batch in flight is
      already stale, one otherwise. */
  function Rounds(s: State): nat {
    if s.pending == map[] then 0
    else if s.lock.Some? && s.lock.value in s.tasks && StaleBatch(s.tasks[s.lock.value], s.pending) then 2
    else 1
  }

  predicate StaleBatch(task: Task, pending: Table) {
    (task.pc.Writing? || task.pc.Written?) && task.batch != pending
  }

  ghost function Inserts(s: State): nat {
    Sum(s.tasks, ToInsert)
  }

  ghost function Distances(s: State): nat {
    Sum(s.tasks, WeightFor(s.pending == map[]))
  }

  ghost predicate Decreases(s: State, s': State) {
    || Inserts(s') < Inserts(s)
    || (Inserts(s') == Inserts(s) && Rounds(s') < Rounds(s))
    || (Inserts(s') == Inserts(s) && Rounds(s') == Rounds(s) && Distances(s') < Distances(s))
  }

  /** A batch in hand means its keys are still pending. */
  ghost predicate BatchPending(s: State) {
    forall t :: t in s.tasks ==> KeysPending(s.pending, s.tasks[t])
  }

  predicate KeysPending(pending: Table, task: Task) {
    task.pc.Writing? || task.pc.Written? ==> task.batch != map[] && task.batch.Keys <= pending.Keys
  }

  lemma {:induction false} WriteThroughKeepsKeys(table: Table, log: seq<Entry>)
    ensures table.Keys <= WriteThrough(table, log).Keys
    decreases |log|
  {
    if log == [] {
    } else {
      WriteThroughKeepsKeys(table, log[..|log| - 1]);
    }
  }

  /** The pending keys do not shrink, except by a finish, and then nobody else has a batch. */
  lemma OthersKeepKeys(s: State, a: Action, u: nat)
    requires LockOk(s) && Enabled(s, a) && u in s.tasks && u != a.t && KeysPending(s.pending, s.tasks[u])
    ensures KeysPending(Step(s, a).pending, s.tasks[u])
  {
    if a.Insert? {
      WriteThroughKeepsKeys(s.pending, s.tasks[a.t].role.entries);
    } else if a.Finish? {
      OtherWriterImpossible(s, a.t, u);
    }
  }

  lemma MoveKeepsKeys(s: State, a: Action)
    requires Enabled(s, a) && (a.t in s.tasks ==> KeysPending(s.pending, s.tasks[a.t]))
    ensures KeysPending(Step(s, a).pending, Move(s, a))
  {
  }

  lemma StepKeepsBatchPending(s: State, a: Action)
    requires LockOk(s) && BatchPending(s) && Enabled(s, a)
    ensures BatchPending(Step(s, a))
  {
    var s' := Step(s, a);
    StepFrame(s, a);
    MoveKeepsKeys(s, a);
    forall u | u in s'.tasks
      ensures KeysPending(s'.pending, s'.tasks[u])
    {
      if u in s.tasks && u != a.t {
        OthersKeepKeys(s, a, u);
      }
    }
  }

  // -- Each internal step decreases it --

  lemma FinishDecreases(s: State, t: nat)
    requires LockOk(s) && BatchPending(s) && Enabled(s, Finish(t))
    ensures Rounds(Step(s, Finish(t))) < Rounds(s)
  {
  }

  lemma OtherKeepsRounds(s: State, a: Action)
    requires LockOk(s) && Enabled(s, a) && Internal(a) && !a.Insert? && !a.Finish? && !a.Cancel?
    ensures Rounds(Step(s, a)) == Rounds(s)
    ensures Step(s, a).pending == s.pending
  {
  }

  /** Apart from a spawn, one task moves and its own distance drops. */
  lemma OtherMovesCloser(s: State, a: Action)
    requires Enabled(s, a) && Internal(a) && !a.Insert? && !a.Finish? && !a.Spawn? && !a.Cancel?
    requires RoleAllows(s.tasks[a.t])
    ensures ToInsert(Move(s, a)) == ToInsert(s.tasks[a.t])
    ensures Distance(Move(s, a).pc, s.pending == map[]) < Distance(s.tasks[a.t].pc, s.pending == map[])
  {
  }

  lemma OtherDecreases(s: State, a: Action)
    requires RolesOk(s) && LockOk(s) && BatchPending(s) && Enabled(s, a) && Internal(a)
    requires !a.Insert? && !a.Finish? && !a.Spawn? && !a.Cancel?
    ensures Decreases(s, Step(s, a))
  {
    OtherKeepsRounds(s, a);
    OtherMovesCloser(s, a);
    SumMoves(s.tasks, Step(s, a).tasks, a.t, ToInsert);
    SumMoves(s.tasks, Step(s, a).tasks, a.t, WeightFor(s.pending == map[]));
  }

  lemma CancelKeepsRounds(s: State, t: nat, landed: bool)
    requires LockOk(s) && Enabled(s, Cancel(t, landed))
    ensures Rounds(Step(s, Cancel(t, landed))) <= Rounds(s)
  {
  }

  lemma CancelDecreases(s: State, t: nat, landed: bool)
    requires LockOk(s) && Enabled(s, Cancel(t, landed))
    ensures Decreases(s, Step(s, Cancel(t, landed)))
  {
    var a := Cancel(t, landed);
    CancelKeepsRounds(s, t, landed);
    SumMoves(s.tasks, Step(s, a).tasks, t, ToInsert);
    SumMoves(s.tasks, Step(s, a).tasks, t, WeightFor(s.pending == map[]));
  }

  lemma SpawnDecreases(s: State, t: nat, drain: nat)
    requires LockOk(s) && Enabled(s, Spawn(t, drain))
    ensures Decreases(s, Step(s, Spawn(t, drain)))
  {
    OtherKeepsRounds(s, Spawn(t, drain));
    var mid := s.(tasks := s.tasks[t := Move(s, Spawn(t, drain))]);
    var s' := Step(s, Spawn(t, drain));
    var weight := WeightFor(s.pending == map[]);
    SumMoves(s.tasks, mid.tasks, t, ToInsert);
    SumMoves(s.tasks, mid.tasks, t, weight);
    SumMoves(mid.tasks, s'.tasks, drain, ToInsert);
    SumMoves(mid.tasks, s'.tasks, drain, weight);
  }

  lemma StepDecreases(s: State, a: Action)
    requires RolesOk(s) && LockOk(s) && BatchPending(s) && Enabled(s, a) && Internal(a)
    ensures Decreases(s, Step(s, a))
  {
    if a.Insert? {
      SumMoves(s.tasks, Step(s, a).tasks, a.t, ToInsert);
    } else if a.Finish? {
      FinishDecreases(s, a.t);
      SumMoves(s.tasks, Step(s, a).tasks, a.t, ToInsert);
    } else if a.Spawn? {
      SpawnDecreases(s, a.t, a.drain);
    } else if a.Cancel? {
      CancelDecreases(s, a.t, a.landed);
    } else {
      OtherDecreases(s, a);
    }
  }

  // -- Every schedule ends --

  ghost predicate InternalStep(s: State, s': State) {
    exists a :: Internal(a) && Enabled(s, a) && s' == Step(s, a)
  }

  lemma InternalStepDecreases(s: State, s': State)
    requires Inv(s) && BatchPending(s) && InternalStep(s, s')
    ensures Inv(s') && BatchPending(s') && Decreases(s, s')
  {
    var a :| Internal(a) && Enabled(s, a) && s' == Step(s, a);
    StepKeepsInv(s, a);
    StepKeepsBatchPending(s, a);
    StepDecreases(s, a);
  }

  lemma {:induction false} RunKeepsBatchPending(run: seq<State>, i: nat)
    requires IsRun(run) && i < |run|
    ensures BatchPending(run[i])
    decreases i
  {
    if i == 0 {
    } else {
      RunKeepsBatchPending(run, i - 1);
      RunKeepsInv(run, i - 1);
      assert Follows(run[i - 1], run[i]);
      var a :| Enabled(run[i - 1], a) && run[i] == Step(run[i - 1], a);
      StepKeepsBatchPending(run[i - 1], a);
    }
  }

  ghost predicate Reachable(s: State) {
    exists run :: IsRun(run) && run[|run| - 1] == s
  }

  lemma ReachableDescends(s: State, s': State)
    requires Reachable(s) && InternalStep(s, s')
    ensures Reachable(s') && Decreases(s, s')
  {
    var run :| IsRun(run) && run[|run| - 1] == s;
    RunKeepsInv(run, |run| - 1);
    RunKeepsBatchPending(run, |run| - 1);
    InternalStepDecreases(s, s');
    ExtendRun(run, s');
  }

  lemma ExtendRun(run: seq<State>, s': State)
    requires IsRun(run) && InternalStep(run[|run| - 1], s')
    ensures Reachable(s')
  {
    var longer := run + [s'];
    assert Follows(run[|run| - 1], s');
    assert IsRun(longer) && longer[|longer| - 1] == s';
  }

  /** At this point the schedule does something other than an internal step. */
  ghost predicate Stops(schedule: nat -> State, n: nat) {
    !InternalStep(schedule(n), schedule(n + 1))
  }

  /** Every schedule stops: from any reachable point on, an endless sequence of states cannot be all
      internal steps, so without new calls the tasks run out of steps. */
  lemma {:induction false} ScheduleStops(schedule: nat -> State, from: nat) returns (stop: nat)
    requires Reachable(schedule(from))
    ensures from <= stop && Stops(schedule, stop)
    decreases Inserts(schedule(from)), Rounds(schedule(from)), Distances(schedule(from))
  {
    if Stops(schedule, from) {
      stop := from;
    } else {
      ReachableDescends(schedule(from), schedule(from + 1));
      stop := ScheduleStops(schedule, from + 1);
    }
  }

  /** A schedule can only end durable: where no internal step is left every task has returned or was
      cancelled, and, unless a call was cancelled in a sealed buffer, nothing is pending and, if no
      write failed, the backend is the write-through of the whole log. */
  lemma ScheduleEndsDurable(run: seq<State>, i: nat)
    requires IsRun(run) && i < |run|
    requires forall s' :: !InternalStep(run[i], s')
    ensures forall t :: t in run[i].tasks ==> Over(run[i].tasks[t].pc)
    ensures NoneDroppedAfterSeal(run[i]) ==>
              && run[i].pending == map[]
              && (!run[i].failed ==> run[i].backend == WriteThrough(run[i].base, run[i].log))
  {
    forall t | t in run[i].tasks
      ensures Over(run[i].tasks[t].pc)
    {
      if !Over(run[i].tasks[t].pc) {
        NoDeadlock(run, i, t);
        var a :| Internal(a) && Enabled(run[i], a);
        assert InternalStep(run[i], Step(run[i], a));
      }
    }
    QuiescentMeansDurable(run, i);
  }
}
