/**
 The hand-off of delivery receipts at the end of an offline sync: message workers offer
 receipts to a shared buffer; `complete_offline_sync` flips the completion flag, takes the
 buffer and spawns the aggregate send; disconnects take and spawn without flipping and then
 close the outbound scope; connection resets lower the flag and clear the buffer, and a new
 connection also reopens the scope. Any number of each run concurrently, in every interleaving.

 A task's number stands for its receipt. `batches` and `singles` are what the outbound scope
 accepted, as aggregates and one by one; `lost` is what it turned away because it was closed;
 `dropped` is what resets discarded.
 */
module OfflineHandoff {
  datatype Role = Offer | Complete | Disconnect | Reset | Connect

  /** `Locked` and `Checked` hold the buffer lock; `Checked` has seen the flag down. `Flipped` has
      raised the flag and not taken the buffer. `Taken` has receipts in hand for the outbound
      scope: a taken buffer, or an offer's own refused receipt. `Spawned` has still to close the
      scope, `Lowered` to clear the buffer and `Cleared` to reopen the scope. */
  datatype Pc = Start | Locked | Checked | Flipped | Taken | Spawned | Lowered | Cleared | Done

  datatype Task = Task(role: Role, pc: Pc, hand: seq<nat>)

  datatype State = State(
    completed: bool,
    closed: bool,
    buffer: seq<nat>,
    tasks: seq<Task>,
    batches: seq<seq<nat>>,
    singles: seq<nat>,
    lost: seq<nat>,
    dropped: seq<nat>)

  datatype Action = Spawn(role: Role) | Advance(task: nat)

  predicate HoldsLock(task: Task) {
    task.pc.Locked? || task.pc.Checked?
  }

  ghost predicate LockFree(s: State) {
    forall t :: 0 <= t < |s.tasks| ==> !HoldsLock(s.tasks[t])
  }

  /** Whether the next step of a task begins by taking the buffer lock. */
  predicate TakesLock(task: Task) {
    || (task.pc.Start? && (task.role.Offer? || task.role.Disconnect?))
    || task.pc.Flipped? || task.pc.Lowered?
  }

  ghost predicate Enabled(s: State, a: Action) {
    match a
    case Spawn(_) => true
    case Advance(t) =>
      && t < |s.tasks| && !s.tasks[t].pc.Done?
      && (TakesLock(s.tasks[t]) ==> LockFree(s))
  }

  predicate Takes(task: Task) {
    task.pc.Flipped? || (task.role.Disconnect? && task.pc.Start?)
  }

  predicate Refuses(s: State, task: Task) {
    task.pc.Locked? && s.completed
  }

  function NextPc(s: State, task: Task): Pc {
    match task.role
    case Offer =>
      if task.pc.Start? then Locked
      else if task.pc.Locked? then (if s.completed then Taken else Checked)
      else Done
    case Complete =>
      if task.pc.Start? then (if s.completed then Done else Flipped)
      else if task.pc.Flipped? && s.buffer != [] then Taken
      else Done
    case Disconnect =>
      if task.pc.Start? then (if s.buffer != [] then Taken else Spawned)
      else if task.pc.Taken? then Spawned
      else Done
    case Reset => if task.pc.Start? then Lowered else Done
    case Connect => if task.pc.Start? then Lowered else if task.pc.Lowered? then Cleared else Done
  }

  function NextHand(s: State, t: nat): seq<nat>
    requires t < |s.tasks|
  {
    if Takes(s.tasks[t]) then s.buffer
    else if Refuses(s, s.tasks[t]) then [t]
    else []
  }

  function Moved(s: State, t: nat): Task
    requires t < |s.tasks|
  {
    Task(s.tasks[t].role, NextPc(s, s.tasks[t]), NextHand(s, t))
  }

  predicate Lowers(task: Task) {
    (task.role.Reset? || task.role.Connect?) && task.pc.Start?
  }

  function StepOf(s: State, t: nat): State
    requires t < |s.tasks|
  {
    var task := s.tasks[t];
    State(
      completed :=
        if task.role.Complete? && task.pc.Start? then true
        else if Lowers(task) then false
        else s.completed,
      closed :=
        if task.pc.Spawned? then true
        else if task.pc.Cleared? then false
        else s.closed,
      buffer :=
        if task.pc.Checked? then s.buffer + [t]
        else if Takes(task) || task.pc.Lowered? then []
        else s.buffer,
      tasks := s.tasks[t := Moved(s, t)],
      batches :=
        if task.pc.Taken? && !s.closed && !task.role.Offer? then s.batches + [task.hand] else s.batches,
      singles := if task.pc.Taken? && !s.closed && task.role.Offer? then s.singles + task.hand else s.singles,
      lost := if task.pc.Taken? && s.closed then s.lost + task.hand else s.lost,
      dropped := if task.pc.Lowered? then s.dropped + s.buffer else s.dropped)
  }

  function Step(s: State, a: Action): State
    requires a.Advance? ==> a.task < |s.tasks|
  {
    match a
    case Spawn(role) => s.(tasks := s.tasks + [Task(role, Start, [])])
    case Advance(t) => StepOf(s, t)
  }

  // -- Conservation --

  /** All receipts of a list of batches, in order. */
  function Flat(batches: seq<seq<nat>>): seq<nat> {
    if batches == [] then [] else Flat(batches[..|batches| - 1]) + batches[|batches| - 1]
  }

  lemma FlatSnoc(batches: seq<seq<nat>>, batch: seq<nat>)
    ensures Flat(batches + [batch]) == Flat(batches) + batch
  {
    assert (batches + [batch])[..|batches|] == batches;
  }

  /** How often a receipt occurs in a list. */
  ghost function Count(xs: seq<nat>, x: nat): nat {
    multiset(xs)[x]
  }

  lemma CountAppend(xs: seq<nat>, ys: seq<nat>, x: nat)
    ensures Count(xs + ys, x) == Count(xs, x) + Count(ys, x)
  {
  }

  /** How often the tasks have it in hand. */
  ghost function InHands(tasks: seq<Task>, x: nat): nat {
    if tasks == [] then 0 else InHands(tasks[..|tasks| - 1], x) + Count(tasks[|tasks| - 1].hand, x)
  }

  lemma {:induction false} HandsUpdate(tasks: seq<Task>, t: nat, task: Task, x: nat)
    requires t < |tasks|
    ensures InHands(tasks[t := task], x) + Count(tasks[t].hand, x) == InHands(tasks, x) + Count(task.hand, x)
  {
    var init := tasks[..|tasks| - 1];
    if t < |init| {
      HandsUpdate(init, t, task, x);
      assert tasks[t := task][..|init|] == init[t := task];
    } else {
      assert tasks[t := task][..|init|] == init;
    }
  }

  lemma {:induction false} HandsEmpty(tasks: seq<Task>, x: nat)
    requires forall t :: 0 <= t < |tasks| ==> tasks[t].hand == []
    ensures InHands(tasks, x) == 0
  {
    if tasks == [] {
    } else {
      HandsEmpty(tasks[..|tasks| - 1], x);
    }
  }

  /** How often a receipt is recorded outside the tasks' hands. */
  ghost function Recorded(s: State, x: nat): nat {
    Count(s.buffer, x) + Count(Flat(s.batches), x) + Count(s.singles, x) + Count(s.lost, x) + Count(s.dropped, x)
  }

  /** The offer has pushed its receipt or had it refused. */
  predicate Decided(s: State, t: nat) {
    t < |s.tasks| && s.tasks[t].role.Offer? && (s.tasks[t].pc.Taken? || s.tasks[t].pc.Done?)
  }

  /** Every decided offer has exactly one fate, and nothing else has any. */
  ghost predicate Conserves(s: State) {
    forall x: nat :: Recorded(s, x) + InHands(s.tasks, x) == if Decided(s, x) then 1 else 0
  }

  predicate PcFits(task: Task) {
    && (task.hand != [] <==> task.pc.Taken?)
    && match task.pc
       case Locked => task.role.Offer?
       case Checked => task.role.Offer?
       case Flipped => task.role.Complete?
       case Taken => task.role.Offer? || task.role.Complete? || task.role.Disconnect?
       case Spawned => task.role.Disconnect?
       case Lowered => task.role.Reset? || task.role.Connect?
       case Cleared => task.role.Connect?
       case _ => true
  }

  lemma SpawningMoves(s: State, t: nat, x: nat)
    requires t < |s.tasks| && s.tasks[t].pc.Taken?
    ensures Recorded(StepOf(s, t), x) == Recorded(s, x) + Count(s.tasks[t].hand, x)
  {
    var hand := s.tasks[t].hand;
    FlatSnoc(s.batches, hand);
    CountAppend(Flat(s.batches), hand, x);
    CountAppend(s.singles, hand, x);
    CountAppend(s.lost, hand, x);
  }

  lemma PushingMoves(s: State, t: nat, x: nat)
    requires t < |s.tasks| && s.tasks[t].pc.Checked?
    ensures Recorded(StepOf(s, t), x) == Recorded(s, x) + (if x == t then 1 else 0)
  {
    CountAppend(s.buffer, [t], x);
    assert Count([t], x) == if x == t then 1 else 0;
  }

  lemma OtherMoves(s: State, t: nat, x: nat)
    requires t < |s.tasks| && !s.tasks[t].pc.Taken? && !s.tasks[t].pc.Checked?
    ensures Recorded(StepOf(s, t), x) + (if Takes(s.tasks[t]) then Count(s.buffer, x) else 0) == Recorded(s, x)
  {
    CountAppend(s.dropped, s.buffer, x);
    assert Count([], x) == 0;
  }

  /** What a step records it takes from its own task's hand, except for the receipt it decides. */
  lemma RecordMoves(s: State, t: nat, x: nat)
    requires t < |s.tasks| && PcFits(s.tasks[t]) && !s.tasks[t].pc.Done?
    ensures Recorded(StepOf(s, t), x) + Count(Moved(s, t).hand, x) ==
            Recorded(s, x) + Count(s.tasks[t].hand, x) +
            (if x == t && Decided(StepOf(s, t), t) && !Decided(s, t) then 1 else 0)
  {
    assert Count([t], x) == if x == t then 1 else 0;
    if s.tasks[t].pc.Taken? {
      SpawningMoves(s, t, x);
    } else if s.tasks[t].pc.Checked? {
      PushingMoves(s, t, x);
    } else {
      OtherMoves(s, t, x);
    }
  }

  lemma StepConserves(s: State, t: nat)
    requires Conserves(s) && t < |s.tasks| && PcFits(s.tasks[t]) && !s.tasks[t].pc.Done?
    ensures Conserves(StepOf(s, t))
  {
    var s' := StepOf(s, t);
    forall x: nat
      ensures Recorded(s', x) + InHands(s'.tasks, x) == if Decided(s', x) then 1 else 0
    {
      RecordMoves(s, t, x);
      HandsUpdate(s.tasks, t, Moved(s, t), x);
      assert x != t ==> Decided(s', x) == Decided(s, x);
      assert Decided(s, t) ==> Decided(s', t);
    }
  }

  // -- Invariant --

  ghost predicate MutualExclusion(s: State) {
    forall t, u :: 0 <= t < u < |s.tasks| ==> !HoldsLock(s.tasks[t]) || !HoldsLock(s.tasks[u])
  }

  /** Nothing is buffered and nobody is about to push. */
  ghost predicate Quiet(s: State) {
    s.buffer == [] && forall t :: 0 <= t < |s.tasks| ==> !s.tasks[t].pc.Checked?
  }

  ghost predicate DrainPending(s: State) {
    exists t :: 0 <= t < |s.tasks| && s.tasks[t].pc.Flipped?
  }

  ghost predicate Inv(s: State) {
    && (forall t :: 0 <= t < |s.tasks| ==> PcFits(s.tasks[t]))
    && MutualExclusion(s)
    && Conserves(s)
    && (s.completed ==> DrainPending(s) || Quiet(s))
  }

  /** A raised flag keeps a quiet buffer quiet, and a flip is always followed by its drain. */
  lemma StepKeepsHandoff(s: State, t: nat)
    requires Inv(s) && Enabled(s, Advance(t)) && StepOf(s, t).completed
    ensures DrainPending(StepOf(s, t)) || Quiet(StepOf(s, t))
  {
    var s' := StepOf(s, t);
    if s.tasks[t].role.Complete? && s.tasks[t].pc.Start? && !s.completed {
      assert s'.tasks[t].pc.Flipped?;
    } else if s.tasks[t].pc.Flipped? {
      assert Quiet(s');
    } else if DrainPending(s) {
      var c :| 0 <= c < |s.tasks| && s.tasks[c].pc.Flipped?;
      assert s'.tasks[c].pc.Flipped?;
    } else {
      assert Quiet(s');
    }
  }

  lemma StepKeepsPcs(s: State, t: nat)
    requires Inv(s) && Enabled(s, Advance(t))
    ensures forall u :: 0 <= u < |s.tasks| ==> PcFits(StepOf(s, t).tasks[u])
    ensures MutualExclusion(StepOf(s, t))
  {
    assert PcFits(s.tasks[t]);
    assert PcFits(Moved(s, t));
  }

  lemma SpawnConserves(s: State, role: Role)
    requires Conserves(s)
    ensures Conserves(Step(s, Spawn(role)))
  {
    var s' := Step(s, Spawn(role));
    forall x: nat
      ensures Recorded(s', x) + InHands(s'.tasks, x) == if Decided(s', x) then 1 else 0
    {
      assert s'.tasks[..|s.tasks|] == s.tasks;
      assert Decided(s', x) == Decided(s, x);
      assert Recorded(s', x) == Recorded(s, x);
    }
  }

  lemma SpawnKeepsInv(s: State, role: Role)
    requires Inv(s)
    ensures Inv(Step(s, Spawn(role)))
  {
    var s' := Step(s, Spawn(role));
    SpawnConserves(s, role);
    if DrainPending(s) {
      var c :| 0 <= c < |s.tasks| && s.tasks[c].pc.Flipped?;
      assert s'.tasks[c].pc.Flipped?;
    }
  }

  lemma StepKeepsInv(s: State, a: Action)
    requires Inv(s) && Enabled(s, a)
    ensures Inv(Step(s, a))
  {
    match a
    case Spawn(role) => SpawnKeepsInv(s, role);
    case Advance(t) =>
      StepConserves(s, t);
      StepKeepsPcs(s, t);
      if StepOf(s, t).completed {
        StepKeepsHandoff(s, t);
      }
  }

  // -- Whole runs --

  predicate Starts(s: State) {
    s == State(false, false, [], [], [], [], [], [])
  }

  ghost predicate Follows(s: State, s': State) {
    exists a :: Enabled(s, a) && s' == Step(s, a)
  }

  ghost predicate IsRun(run: seq<State>) {
    && |run| > 0 && Starts(run[0])
    && forall i :: 0 < i < |run| ==> Follows(run[i - 1], run[i])
  }

  lemma {:induction false} RunKeepsInv(run: seq<State>, i: nat)
    requires IsRun(run) && i < |run|
    ensures Inv(run[i])
    decreases i
  {
    if i == 0 {
    } else {
      RunKeepsInv(run, i - 1);
      assert Follows(run[i - 1], run[i]);
      var a :| Enabled(run[i - 1], a) && run[i] == Step(run[i - 1], a);
      StepKeepsInv(run[i - 1], a);
    }
  }

  /** In every run each offer that has decided is in exactly one place, once: still buffered, in a
      task's hand, accepted in an aggregate batch or singly, turned away by the closed scope, or
      discarded by a reset. One that has not is in none. */
  lemma ExactlyOneFate(run: seq<State>, i: nat, t: nat)
    requires IsRun(run) && i < |run|
    ensures Count(run[i].buffer, t) + InHands(run[i].tasks, t) + Count(Flat(run[i].batches), t) +
            Count(run[i].singles, t) + Count(run[i].lost, t) + Count(run[i].dropped, t) ==
            if Decided(run[i], t) then 1 else 0
  {
    RunKeepsInv(run, i);
    assert Recorded(run[i], t) + InHands(run[i].tasks, t) == if Decided(run[i], t) then 1 else 0;
  }

  /** Whenever the flag is up and no completion still owes its drain, the buffer is empty. */
  lemma NoReceiptStrands(run: seq<State>, i: nat)
    requires IsRun(run) && i < |run| && run[i].completed && !DrainPending(run[i])
    ensures run[i].buffer == []
  {
    RunKeepsInv(run, i);
  }

  ghost predicate NoReset(s: State) {
    forall t :: 0 <= t < |s.tasks| ==> !s.tasks[t].role.Reset? && !s.tasks[t].role.Connect?
  }

  ghost predicate NoDisconnect(s: State) {
    forall t :: 0 <= t < |s.tasks| ==> !s.tasks[t].role.Disconnect?
  }

  predicate Quiescent(s: State) {
    forall t :: 0 <= t < |s.tasks| ==> s.tasks[t].pc.Done?
  }

  lemma RolesStay(s: State, a: Action)
    requires Enabled(s, a)
    ensures forall t :: 0 <= t < |s.tasks| ==> t < |Step(s, a).tasks| && Step(s, a).tasks[t].role == s.tasks[t].role
  {
    assert a.Spawn? ==> Step(s, a).tasks == s.tasks + [Task(a.role, Start, [])];
    assert a.Advance? ==> Step(s, a).tasks[a.task].role == s.tasks[a.task].role;
  }

  /** A connection without a reset drops nothing, and one without a disconnect loses nothing. */
  lemma {:induction false} NothingDiscarded(run: seq<State>, i: nat)
    requires IsRun(run) && i < |run|
    ensures NoReset(run[i]) ==> run[i].dropped == []
    ensures NoDisconnect(run[i]) ==> !run[i].closed && run[i].lost == []
    decreases i
  {
    if i == 0 {
    } else {
      RunKeepsInv(run, i - 1);
      assert Follows(run[i - 1], run[i]);
      var a :| Enabled(run[i - 1], a) && run[i] == Step(run[i - 1], a);
      RolesStay(run[i - 1], a);
      NothingDiscarded(run, i - 1);
      assert a.Advance? ==> PcFits(run[i - 1].tasks[a.task]);
      assert a.Advance? ==> run[i].tasks[a.task].role == run[i - 1].tasks[a.task].role;
    }
  }

  /** Exactly-once hand-off, over any number of connections: when all tasks are done, every offered
      receipt was accepted in one batch, or accepted singly, or turned away by a closed scope, or
      discarded by a reset, or is still buffered, and never two of these. With the flag up nothing
      is buffered, without a reset nothing is discarded, and without a disconnect nothing is
      turned away. */
  lemma HandoffIsExactlyOnce(run: seq<State>, i: nat, t: nat)
    requires IsRun(run) && i < |run| && Quiescent(run[i])
    ensures Count(Flat(run[i].batches), t) + Count(run[i].singles, t) + Count(run[i].lost, t) +
            Count(run[i].dropped, t) + Count(run[i].buffer, t) ==
            if t < |run[i].tasks| && run[i].tasks[t].role.Offer? then 1 else 0
    ensures run[i].completed ==> run[i].buffer == []
    ensures NoReset(run[i]) ==> run[i].dropped == []
    ensures NoDisconnect(run[i]) ==> run[i].lost == []
  {
    RunKeepsInv(run, i);
    NothingDiscarded(run, i);
    assert forall u :: 0 <= u < |run[i].tasks| ==> PcFits(run[i].tasks[u]);
    HandsEmpty(run[i].tasks, t);
    ExactlyOneFate(run, i, t);
  }
}
