/**
 The flush scope: spawned tasks are counted by a guard that decrements when it is dropped
 (on completion, on abort, or before the first poll), `close` and `reopen` gate new spawns, and
 `flush` listens, loads the counter and waits to be notified. Any number of spawns, closes,
 reopens and flushes run concurrently, in every interleaving.
 */
module FlushScope {
  import opened Switches

  datatype Role = Spawn | Close | Reopen | Flush

  /** `Checked`: the spawner holds the mutex and has seen the scope open. `Live`: counted, its
      guard not dropped. `Decremented`: the drop took the counter to zero and has not notified.
      `Listening`: the flusher has a listener and has not loaded the counter. `Waiting`: it loaded
      a positive count and waits. `Returned`: it loaded zero. */
  datatype Pc = Start | Checked | Live | Decremented | Listening | Waiting | Returned | TimedOut | Done

  /** `notified` says whether a flusher's current listener has been notified. */
  datatype Task = Task(role: Role, pc: Pc, notified: bool)

  datatype State = State(count: nat, closed: bool, tasks: seq<Task>)

  datatype Action = New(role: Role) | Advance(task: nat) | TimeOut(task: nat)

  predicate Ended(task: Task) {
    task.pc.Returned? || task.pc.TimedOut? || task.pc.Done?
  }

  predicate TakesMutex(task: Task) {
    task.pc.Start? && !task.role.Flush?
  }

  ghost predicate MutexFree(s: State) {
    forall t :: 0 <= t < |s.tasks| ==> !s.tasks[t].pc.Checked?
  }

  ghost predicate Enabled(s: State, a: Action) {
    match a
    case New(_) => true
    case Advance(t) =>
      && t < |s.tasks| && !Ended(s.tasks[t])
      && (TakesMutex(s.tasks[t]) ==> MutexFree(s))
      && (s.tasks[t].pc.Waiting? ==> s.tasks[t].notified)
    case TimeOut(t) => t < |s.tasks| && s.tasks[t].pc.Waiting?
  }

  function NextPc(s: State, task: Task): Pc {
    match task.role
    case Spawn => (
      match task.pc
      case Start => if s.closed then Done else Checked
      case Checked => Live
      case Live => if s.count == 1 then Decremented else Done
      case _ => Done)
    case Flush => (
      match task.pc
      case Start => Listening
      case Listening => if s.count == 0 then Returned else Waiting
      case _ => Start)
    case _ => Done
  }

  /** A listener is created without a notification; a notification reaches every listener. */
  function Wake(task: Task): Task {
    if task.pc.Listening? || task.pc.Waiting? then task.(notified := true) else task
  }

  function WakeAll(tasks: seq<Task>): (woken: seq<Task>)
    ensures |woken| == |tasks|
    ensures forall t :: 0 <= t < |tasks| ==> woken[t] == Wake(tasks[t])
  {
    seq(|tasks|, t requires 0 <= t < |tasks| => Wake(tasks[t]))
  }

  function Moved(s: State, t: nat): Task
    requires t < |s.tasks|
  {
    var task := s.tasks[t];
    Task(task.role, NextPc(s, task), task.notified && !task.pc.Start?)
  }

  function StepOf(s: State, t: nat): State
    requires t < |s.tasks|
  {
    var task := s.tasks[t];
    State(
      count :=
        if task.pc.Checked? then s.count + 1
        else if task.pc.Live? && s.count > 0 then s.count - 1
        else s.count,
      closed :=
        if task.pc.Start? && task.role.Close? then true
        else if task.pc.Start? && task.role.Reopen? then false
        else s.closed,
      tasks := (if task.pc.Decremented? then WakeAll(s.tasks) else s.tasks)[t := Moved(s, t)])
  }

  ghost function Step(s: State, a: Action): State
    requires Enabled(s, a)
  {
    match a
    case New(role) => s.(tasks := s.tasks + [Task(role, Start, false)])
    case Advance(t) => StepOf(s, t)
    case TimeOut(t) => s.(tasks := s.tasks[t := s.tasks[t].(pc := TimedOut)])
  }

  // -- Sums over tasks --

  function Sum(tasks: seq<Task>, weight: Task -> nat): nat {
    if tasks == [] then 0
    else Sum(tasks[..|tasks| - 1], weight) + weight(tasks[|tasks| - 1])
  }

  lemma {:induction false} SumUpdate(tasks: seq<Task>, t: nat, task: Task, weight: Task -> nat)
    requires t < |tasks|
    ensures Sum(tasks[t := task], weight) + weight(tasks[t]) == Sum(tasks, weight) + weight(task)
  {
    var init := tasks[..|tasks| - 1];
    if t < |init| {
      SumUpdate(init, t, task, weight);
      assert tasks[t := task][..|init|] == init[t := task];
    } else {
      assert tasks[t := task][..|init|] == init;
    }
  }

  lemma {:induction false} SumSame(a: seq<Task>, b: seq<Task>, weight: Task -> nat)
    requires |a| == |b| && forall t :: 0 <= t < |a| ==> weight(a[t]) == weight(b[t])
    ensures Sum(a, weight) == Sum(b, weight)
  {
    if a == [] {
    } else {
      SumSame(a[..|a| - 1], b[..|b| - 1], weight);
    }
  }

  lemma {:induction false} SumBounds(tasks: seq<Task>, t: nat, weight: Task -> nat)
    requires t < |tasks|
    ensures weight(tasks[t]) <= Sum(tasks, weight)
  {
    if t < |tasks| - 1 {
      SumBounds(tasks[..|tasks| - 1], t, weight);
    }
  }

  lemma {:induction false} SumZero(tasks: seq<Task>, weight: Task -> nat)
    requires forall t :: 0 <= t < |tasks| ==> weight(tasks[t]) == 0
    ensures Sum(tasks, weight) == 0
  {
    if tasks == [] {
    } else {
      SumZero(tasks[..|tasks| - 1], weight);
    }
  }

  // -- Invariant --

  predicate PcFits(task: Task) {
    match task.pc
    case Checked => task.role.Spawn?
    case Live => task.role.Spawn?
    case Decremented => task.role.Spawn?
    case Listening => task.role.Flush?
    case Waiting => task.role.Flush?
    case Returned => task.role.Flush?
    case TimedOut => task.role.Flush?
    case Done => !task.role.Flush?
    case Start => true
  }

  function GuardWeight(): Task -> nat {
    (task: Task) => if task.pc.Live? then 1 else 0
  }

  ghost predicate NotifyPending(s: State) {
    exists d :: 0 <= d < |s.tasks| && s.tasks[d].pc.Decremented?
  }

  predicate Stuck(task: Task) {
    task.pc.Waiting? && !task.notified
  }

  ghost predicate Inv(s: State) {
    && (forall t :: 0 <= t < |s.tasks| ==> PcFits(s.tasks[t]))
    && s.count == Sum(s.tasks, GuardWeight())
    && (s.closed ==> MutexFree(s))
    && (forall t :: 0 <= t < |s.tasks| && Stuck(s.tasks[t]) ==> s.count > 0 || NotifyPending(s))
  }

  lemma StepCounts(s: State, t: nat)
    requires Inv(s) && Enabled(s, Advance(t))
    ensures StepOf(s, t).count == Sum(StepOf(s, t).tasks, GuardWeight())
  {
    var base := if s.tasks[t].pc.Decremented? then WakeAll(s.tasks) else s.tasks;
    SumSame(base, s.tasks, GuardWeight());
    SumUpdate(base, t, Moved(s, t), GuardWeight());
    SumBounds(s.tasks, t, GuardWeight());
  }

  /** No wakeup is lost: whoever takes the counter to zero goes on to notify, and a notification
      reaches every flusher that listened before loading the counter. */
  lemma StepLosesNoWakeup(s: State, t: nat, f: nat)
    requires Inv(s) && Enabled(s, Advance(t))
    requires f < |s.tasks| && Stuck(StepOf(s, t).tasks[f])
    ensures StepOf(s, t).count > 0 || NotifyPending(StepOf(s, t))
  {
    var s' := StepOf(s, t);
    if f == t {
      assert s.tasks[t].pc.Listening? && s'.count == s.count > 0;
    } else {
      assert Stuck(s.tasks[f]) && !s.tasks[t].pc.Decremented?;
      if s.count > 0 {
        assert s'.count == 0 ==> s'.tasks[t].pc.Decremented?;
      } else {
        var d :| 0 <= d < |s.tasks| && s.tasks[d].pc.Decremented?;
        assert s'.tasks[d].pc.Decremented?;
      }
    }
  }

  lemma NewKeepsInv(s: State, role: Role)
    requires Inv(s)
    ensures Inv(Step(s, New(role)))
  {
  }

  lemma TimeOutKeepsInv(s: State, t: nat)
    requires Inv(s) && Enabled(s, TimeOut(t))
    ensures Inv(Step(s, TimeOut(t)))
  {
    var s' := Step(s, TimeOut(t));
    SumUpdate(s.tasks, t, s'.tasks[t], GuardWeight());
    if NotifyPending(s) {
      var d :| 0 <= d < |s.tasks| && s.tasks[d].pc.Decremented?;
      assert s'.tasks[d].pc.Decremented?;
    }
  }

  lemma StepKeepsMutex(s: State, t: nat)
    requires Inv(s) && Enabled(s, Advance(t))
    ensures forall u :: 0 <= u < |s.tasks| ==> PcFits(StepOf(s, t).tasks[u])
    ensures StepOf(s, t).closed ==> MutexFree(StepOf(s, t))
  {
  }

  lemma StepKeepsInv(s: State, a: Action)
    requires Inv(s) && Enabled(s, a)
    ensures Inv(Step(s, a))
  {
    match a
    case New(role) => NewKeepsInv(s, role);
    case TimeOut(t) => TimeOutKeepsInv(s, t);
    case Advance(t) =>
      StepCounts(s, t);
      StepKeepsMutex(s, t);
      forall f | 0 <= f < |s.tasks| && Stuck(StepOf(s, t).tasks[f])
        ensures StepOf(s, t).count > 0 || NotifyPending(StepOf(s, t))
      {
        StepLosesNoWakeup(s, t, f);
      }
  }

  // -- Whole runs --

  ghost predicate Follows(s: State, s': State) {
    exists a :: Enabled(s, a) && s' == Step(s, a)
  }

  ghost predicate IsRun(run: seq<State>) {
    && |run| > 0 && run[0] == State(0, false, [])
    && forall i :: 0 < i < |run| ==> Follows(run[i - 1], run[i])
  }

  lemma {:induction false} RunKeepsInv(run: seq<State>, i: nat)
    requires IsRun(run) && i < |run|
    ensures Inv(run[i])
    decreases i
  {
    if i == 0 {
    } else {
      RunKeepsInv(run, i - 1);
      assert Follows(run[i - 1], run[i]);
      var a :| Enabled(run[i - 1], a) && run[i] == Step(run[i - 1], a);
      StepKeepsInv(run[i - 1], a);
    }
  }

  /** The tasks whose guard has not been dropped. */
  function LiveGuards(tasks: seq<Task>): (live: set<nat>)
    ensures forall t: nat :: t in live <==> t < |tasks| && tasks[t].pc.Live?
  {
    if tasks == [] then {}
    else
      var n := |tasks| - 1;
      LiveGuards(tasks[..n]) + (if tasks[n].pc.Live? then {n as nat} else {})
  }

  lemma {:induction false} GuardsCounted(tasks: seq<Task>)
    ensures |LiveGuards(tasks)| == Sum(tasks, GuardWeight())
  {
    if tasks == [] {
    } else {
      var n := |tasks| - 1;
      GuardsCounted(tasks[..n]);
      assert n !in LiveGuards(tasks[..n]);
    }
  }

  /** The counter is exactly the number of guards not yet dropped, in every reachable state. */
  lemma CountIsLiveGuards(run: seq<State>, i: nat)
    requires IsRun(run) && i < |run|
    ensures run[i].count == |LiveGuards(run[i].tasks)|
  {
    RunKeepsInv(run, i);
    GuardsCounted(run[i].tasks);
  }

  ghost predicate ClosedBetween(run: seq<State>, i: nat, j: nat)
    requires i <= j < |run|
  {
    forall k :: i <= k <= j ==> run[k].closed
  }

  /** While the scope stays closed the counter never rises: a spawn that saw it open had the mutex
      and has counted itself. */
  lemma {:induction false} ClosedNeverRises(run: seq<State>, i: nat, j: nat)
    requires IsRun(run) && i <= j < |run| && ClosedBetween(run, i, j)
    ensures run[j].count <= run[i].count
    decreases j
  {
    if i == j {
    } else {
      ClosedNeverRises(run, i, j - 1);
      RunKeepsInv(run, j - 1);
      assert run[j - 1].closed;
      assert Follows(run[j - 1], run[j]);
    }
  }

  lemma ReturnSeesZero(s: State, a: Action, f: nat)
    requires Enabled(s, a) && f < |s.tasks| && !s.tasks[f].pc.Returned? && Step(s, a).tasks[f].pc.Returned?
    ensures s.count == 0 && Step(s, a).count == 0
  {
  }

  /** What `disconnect` relies on: when a flush returns by itself (at step `i`) under a closed
      scope, no guard is live then, nor later, until the scope is reopened. */
  lemma FlushedStaysFlushed(run: seq<State>, i: nat, j: nat, f: nat)
    requires IsRun(run) && 0 < i <= j < |run| && ClosedBetween(run, i, j)
    requires f < |run[i - 1].tasks| && f < |run[i].tasks|
    requires !run[i - 1].tasks[f].pc.Returned? && run[i].tasks[f].pc.Returned?
    ensures LiveGuards(run[j].tasks) == {}
  {
    assert Follows(run[i - 1], run[i]);
    var a :| Enabled(run[i - 1], a) && run[i] == Step(run[i - 1], a);
    ReturnSeesZero(run[i - 1], a, f);
    ClosedNeverRises(run, i, j);
    CountIsLiveGuards(run, j);
  }

  /** A flusher that waits without a notification has something to wait for. */
  lemma NoLostWakeup(run: seq<State>, i: nat, f: nat)
    requires IsRun(run) && i < |run| && f < |run[i].tasks| && Stuck(run[i].tasks[f])
    ensures LiveGuards(run[i].tasks) != {} || NotifyPending(run[i])
  {
    RunKeepsInv(run, i);
    CountIsLiveGuards(run, i);
  }

  // -- Every flush ends --

  /** Steps a spawn, close or reopen has left. */
  function BusyWeight(): Task -> nat {
    (task: Task) =>
      match task.pc
      case Start => if task.role.Flush? then 0 else 4
      case Checked => 3
      case Live => 2
      case Decremented => 1
      case _ => 0
  }

  /** Steps a flusher can take before it needs another notification. */
  function FlushWeight(): Task -> nat {
    (task: Task) =>
      match task.pc
      case Start => if task.role.Flush? then 3 else 0
      case Listening => if task.notified then 5 else 2
      case Waiting => if task.notified then 4 else 1
      case _ => 0
  }

  ghost predicate Smaller(s': State, s: State) {
    || Sum(s'.tasks, BusyWeight()) < Sum(s.tasks, BusyWeight())
    || (Sum(s'.tasks, BusyWeight()) == Sum(s.tasks, BusyWeight()) &&
        Sum(s'.tasks, FlushWeight()) < Sum(s.tasks, FlushWeight()))
  }

  lemma AdvanceDecreases(s: State, t: nat)
    requires Inv(s) && Enabled(s, Advance(t))
    ensures Smaller(StepOf(s, t), s)
  {
    var base := if s.tasks[t].pc.Decremented? then WakeAll(s.tasks) else s.tasks;
    SumSame(base, s.tasks, BusyWeight());
    SumUpdate(base, t, Moved(s, t), BusyWeight());
    if s.tasks[t].role.Flush? {
      SumUpdate(s.tasks, t, Moved(s, t), FlushWeight());
    }
  }

  /** Every step of the tasks there are, time-outs included, lowers a well-founded measure: without
      new calls no schedule goes on for ever, and a notified flusher that loops is not a busy
      loop. */
  lemma StepDecreases(s: State, a: Action)
    requires Inv(s) && Enabled(s, a) && !a.New?
    ensures Smaller(Step(s, a), s)
  {
    match a
    case Advance(t) => AdvanceDecreases(s, t);
    case TimeOut(t) =>
      SumUpdate(s.tasks, t, Step(s, a).tasks[t], BusyWeight());
      SumUpdate(s.tasks, t, Step(s, a).tasks[t], FlushWeight());
  }

  ghost predicate Advances(s: State, s': State) {
    exists a :: Enabled(s, a) && !a.New? && s' == Step(s, a)
  }

  /** Every schedule stops: from any point on, no endless sequence of states is all steps of the tasks
      there are. */
  lemma {:induction false} ScheduleStops(schedule: nat -> State, from: nat) returns (stop: nat)
    requires Inv(schedule(from))
    ensures from <= stop && !Advances(schedule(stop), schedule(stop + 1))
    decreases Sum(schedule(from).tasks, BusyWeight()), Sum(schedule(from).tasks, FlushWeight())
  {
    if Advances(schedule(from), schedule(from + 1)) {
      var a :| Enabled(schedule(from), a) && !a.New? && schedule(from + 1) == Step(schedule(from), a);
      StepDecreases(schedule(from), a);
      StepKeepsInv(schedule(from), a);
      stop := ScheduleStops(schedule, from + 1);
    } else {
      stop := from;
    }
  }

  ghost predicate NoStepLeft(s: State) {
    forall t: nat :: !Enabled(s, Advance(t))
  }

  /** Where every schedule ends: no guard is live, and every flush has returned, by itself unless
      it timed out. A cancelled task never leaves a flush waiting. */
  lemma EveryFlushReturns(run: seq<State>, i: nat, f: nat)
    requires IsRun(run) && i < |run| && NoStepLeft(run[i])
    requires f < |run[i].tasks| && run[i].tasks[f].role.Flush?
    ensures run[i].tasks[f].pc.Returned? || run[i].tasks[f].pc.TimedOut?
    ensures run[i].count == 0
  {
    var s := run[i];
    RunKeepsInv(run, i);
    forall t | 0 <= t < |s.tasks|
      ensures !s.tasks[t].pc.Checked? && !s.tasks[t].pc.Live? && !s.tasks[t].pc.Decremented?
    {
      assert !Enabled(s, Advance(t));
    }
    SumZero(s.tasks, GuardWeight());
    assert !Enabled(s, Advance(f));
  }

  // -- Which spawns are run --

  /** At step `i` task `t` takes its first step. */
  ghost predicate FirstStepAt(run: seq<State>, i: nat, t: nat) {
    && i + 1 < |run| && t < |run[i].tasks| && t < |run[i + 1].tasks|
    && run[i].tasks[t].pc.Start? && !run[i + 1].tasks[t].pc.Start?
  }

  ghost predicate LiveAt(run: seq<State>, k: nat, t: nat) {
    k < |run| && t < |run[k].tasks| && run[k].tasks[t].pc.Live?
  }

  lemma StepKeepsTask(s: State, a: Action, t: nat)
    requires Enabled(s, a) && t < |s.tasks|
    ensures t < |Step(s, a).tasks| && Step(s, a).tasks[t].role == s.tasks[t].role
    ensures s.tasks[t].role.Spawn? && s.tasks[t].pc.Done? ==> Step(s, a).tasks[t].pc.Done?
    ensures s.tasks[t].role.Spawn? && s.tasks[t].pc.Checked? ==> Step(s, a).tasks[t].pc.Checked? || Step(s, a).tasks[t].pc.Live?
    ensures s.tasks[t].role.Spawn? && s.tasks[t].pc.Start? && !Step(s, a).tasks[t].pc.Start? ==>
              Step(s, a).tasks[t].pc == if s.closed then Done else Checked
  {
  }

  /** A spawn that saw the scope closed is over for good; one that saw it open is about to be live, or
      has been. */
  lemma {:induction false} SpawnGoesOn(run: seq<State>, i: nat, j: nat, t: nat)
    requires IsRun(run) && FirstStepAt(run, i, t) && run[i].tasks[t].role.Spawn? && i < j < |run|
    ensures t < |run[j].tasks| && run[j].tasks[t].role.Spawn?
    ensures run[i].closed ==> run[j].tasks[t].pc.Done?
    ensures !run[i].closed ==> run[j].tasks[t].pc.Checked? || exists k :: i < k <= j && LiveAt(run, k, t)
    decreases j
  {
    assert Follows(run[j - 1], run[j]);
    var a :| Enabled(run[j - 1], a) && run[j] == Step(run[j - 1], a);
    if i == j - 1 {
      StepKeepsTask(run[i], a, t);
    } else {
      SpawnGoesOn(run, i, j - 1, t);
      StepKeepsTask(run[j - 1], a, t);
      if !run[i].closed && run[j].tasks[t].pc.Live? {
        assert LiveAt(run, j, t);
      }
    }
  }

  lemma {:induction false} DoneIsNotLive(run: seq<State>, i: nat, j: nat, t: nat)
    requires IsRun(run) && FirstStepAt(run, i, t) && run[i].tasks[t].role.Spawn? && run[i].closed && i < j < |run|
    ensures forall k :: i < k <= j ==> !LiveAt(run, k, t)
    decreases j
  {
    SpawnGoesOn(run, i, j, t);
    if i == j - 1 {
    } else {
      DoneIsNotLive(run, i, j - 1, t);
    }
  }

  /** A spawn is counted and run if and only if the scope is open at its first step: on every schedule
      that runs to its end its guard is live at some point exactly then, and otherwise it is over
      at once, without ever being live. */
  lemma SpawnRunsIffOpen(run: seq<State>, i: nat, j: nat, t: nat)
    requires IsRun(run) && FirstStepAt(run, i, t) && run[i].tasks[t].role.Spawn? && i < j < |run|
    requires NoStepLeft(run[j])
    ensures (exists k :: i < k <= j && LiveAt(run, k, t)) <==> !run[i].closed
    ensures run[i].closed ==> run[i + 1].tasks[t].pc.Done?
  {
    SpawnGoesOn(run, i, j, t);
    SpawnGoesOn(run, i, i + 1, t);
    if run[i].closed {
      DoneIsNotLive(run, i, j, t);
    } else {
      assert !Enabled(run[j], Advance(t));
    }
  }

  lemma DropStep(s: State, a: Action, t: nat)
    requires Enabled(s, a) && t < |s.tasks| && s.tasks[t].pc.Live? && s.tasks[t].role.Spawn? && s.count > 0
    requires !Step(s, a).tasks[t].pc.Live?
    ensures Step(s, a).count + 1 == s.count
    ensures Step(s, a).tasks[t].pc == if Step(s, a).count == 0 then Decremented else Done
  {
  }

  /** A drop goes on to notify if and only if it was the last: the counter is then zero. */
  lemma LastDropNotifies(run: seq<State>, i: nat, t: nat)
    requires IsRun(run) && LiveAt(run, i, t) && i + 1 < |run| && !LiveAt(run, i + 1, t)
    ensures t < |run[i + 1].tasks| && run[i + 1].count + 1 == run[i].count
    ensures run[i + 1].tasks[t].pc == if run[i + 1].count == 0 then Decremented else Done
  {
    RunKeepsInv(run, i);
    assert PcFits(run[i].tasks[t]);
    SumBounds(run[i].tasks, t, GuardWeight());
    assert Follows(run[i + 1 - 1], run[i + 1]);
    var a :| Enabled(run[i], a) && run[i + 1] == Step(run[i], a);
    StepKeepsTask(run[i], a, t);
    DropStep(run[i], a, t);
  }

  // -- When the scope is closed --

  /** At step `i` a call in this role takes its one step. */
  ghost predicate GateAt(run: seq<State>, i: nat, role: Role) {
    exists t: nat :: FirstStepAt(run, i, t) && run[i].tasks[t].role == role
  }

  lemma StepMovesGate(run: seq<State>, i: nat)
    requires IsRun(run) && i + 1 < |run|
    ensures run[i + 1].closed <==> GateAt(run, i, Close) || (run[i].closed && !GateAt(run, i, Reopen))
  {
    assert Follows(run[i + 1 - 1], run[i + 1]);
    var a :| Enabled(run[i], a) && run[i + 1] == Step(run[i], a);
    if a.Advance? && run[i].tasks[a.task].pc.Start? {
      assert FirstStepAt(run, i, a.task);
    }
  }

  /** The scope is closed if and only if the last close or reopen to take effect was a close. */
  lemma ClosedIffLastGateClosed(run: seq<State>, n: nat)
    requires IsRun(run) && n < |run|
    ensures run[n].closed <==> RaisedLast((j: nat) => GateAt(run, j, Close), (j: nat) => GateAt(run, j, Reopen), n)
  {
    forall i: nat | i < n
      ensures run[i + 1].closed <==> GateAt(run, i, Close) || (run[i].closed && !GateAt(run, i, Reopen))
    {
      StepMovesGate(run, i);
    }
    UpIffLastRaised((j: nat) => j < |run| && run[j].closed,
                    (j: nat) => GateAt(run, j, Close), (j: nat) => GateAt(run, j, Reopen), n);
  }

  // -- A flusher does wait --

  lemma Next(run: seq<State>, a: Action) returns (longer: seq<State>)
    requires IsRun(run) && Enabled(run[|run| - 1], a)
    ensures IsRun(longer) && longer[|longer| - 1] == Step(run[|run| - 1], a)
  {
    longer := run + [Step(run[|run| - 1], a)];
    assert Follows(run[|run| - 1], longer[|run|]);
  }

  lemma OneGuard() returns (run: seq<State>)
    ensures IsRun(run) && run[|run| - 1] == State(1, false, [Task(Spawn, Live, false)])
  {
    run := Next([State(0, false, [])], New(Spawn));
    run := Next(run, Advance(0));
    run := Next(run, Advance(0));
  }

  /** A spawn into a new scope is live, and a flush then waits for it, not notified. */
  lemma FlushWaitsForGuard() returns (run: seq<State>)
    ensures IsRun(run)
    ensures var s := run[|run| - 1];
            s.count == 1 && |s.tasks| == 2 && s.tasks[0].pc.Live? && s.tasks[1].role.Flush? && Stuck(s.tasks[1])
  {
    run := OneGuard();
    run := Next(run, New(Flush));
    run := Next(run, Advance(1));
    run := Next(run, Advance(1));
  }
}
