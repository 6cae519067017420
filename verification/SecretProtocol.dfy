/**
 The write-behind buffer as a protocol: any number of `queue`, `flush` and `disconnect`
 calls and detached drain tasks, interleaved at every lock, atomic and backend await. A call
 that is not a drain may be dropped before it first runs and at either await.

 The history variables are `base` (the backend before the buffer existed), `log` (every
 queued entry in insertion order), `handed` (how much of the log the last written or empty
 snapshot covered), `sealedAt` (the log length at the first seal), `failed` (some backend
 write failed) and each task's `mark`.
 */
module SecretProtocol {
  import opened MsgSecrets
  import opened Options
  import TaskSums

  datatype Role = Queue(entries: seq<Entry>) | Drain | Flush | Disconnect

  /** Program counters. `Wait` to `Wrote` or `FoundNone` are one `flush_pending_once`, the last
      two holding its answer while the lock is released; `Clear` to `Reclaim` are the tail of
      `drain_loop`. */
  datatype Pc =
    | Start
    | Inserted
    | Schedule
    | Spawning
    | Wait
    | Locked
    | Writing
    | Written
    | Wrote
    | FoundNone
    | Clear
    | Check
    | Reclaim
    | Done
    | Cancelled

  /** `batch` is the snapshot a flush has in hand, taken at log length `asOf`; `mark` is the log
      length right after a queue call inserted its entries, or when a flush or disconnect was
      called. */
  datatype Task = Task(role: Role, pc: Pc, batch: Table, asOf: nat, mark: nat)

  datatype State = State(
    pending: Table,
    backend: Table,
    sealed: bool,
    drainInFlight: bool,
    lock: Option<nat>,
    tasks: map<nat, Task>,
    base: Table,
    log: seq<Entry>,
    handed: nat,
    sealedAt: nat,
    failed: bool)

  datatype Action =
    | Call(t: nat, role: Role)
    | ReturnEmpty(t: nat)
    | Insert(t: nat)
    | LoadSealed(t: nat)
    | SwapFlag(t: nat)
    | Spawn(t: nat, drain: nat)
    | Acquire(t: nat)
    | Snapshot(t: nat)
    | Persist(t: nat, ok: bool)
    | Finish(t: nat)
    | Release(t: nat)
    | ClearFlag(t: nat)
    | CheckWork(t: nat)
    | ReclaimFlag(t: nat)
    | Seal(t: nat)
    | Cancel(t: nat, landed: bool)

  predicate At(s: State, t: nat, pc: Pc) {
    t in s.tasks && s.tasks[t].pc == pc
  }

  predicate Enabled(s: State, a: Action) {
    match a
    case Call(t, role) => t !in s.tasks && !role.Drain?
    case ReturnEmpty(t) => At(s, t, Start) && s.tasks[t].role == Queue([])
    case Insert(t) => At(s, t, Start) && s.tasks[t].role.Queue? && s.tasks[t].role.entries != []
    case LoadSealed(t) => At(s, t, Inserted)
    case SwapFlag(t) => At(s, t, Schedule)
    case Spawn(t, drain) => At(s, t, Spawning) && drain !in s.tasks
    case Acquire(t) => At(s, t, Wait) && s.lock == None
    case Snapshot(t) => At(s, t, Locked)
    case Persist(t, ok) => At(s, t, Writing)
    case Finish(t) => At(s, t, Written)
    case Release(t) => At(s, t, Wrote) || At(s, t, FoundNone)
    case ClearFlag(t) => At(s, t, Clear)
    case CheckWork(t) => At(s, t, Check)
    case ReclaimFlag(t) => At(s, t, Reclaim)
    case Seal(t) => At(s, t, Start) && s.tasks[t].role == Disconnect
    case Cancel(t, landed) =>
      t in s.tasks && !s.tasks[t].role.Drain? && Awaiting(s.tasks[t].pc) && (landed ==> s.tasks[t].pc.Writing?)
  }

  /** Where a call can be dropped: not yet running, or waiting for the lock or the backend. A write
      it was waiting for has then landed or not. */
  predicate Awaiting(pc: Pc) {
    pc.Start? || pc.Wait? || pc.Writing?
  }

  /** The batch reaches the backend. */
  predicate Writes(a: Action) {
    (a.Persist? && a.ok) || (a.Cancel? && a.landed)
  }

  function NewTask(role: Role, log: seq<Entry>): Task {
    Task(role, if role.Flush? || role.Drain? then Wait else Start, map[], 0,
         if role.Flush? || role.Disconnect? then |log| else 0)
  }

  /** The acting task after its step. */
  function Move(s: State, a: Action): Task
    requires Enabled(s, a)
  {
    if a.Call? then NewTask(a.role, s.log)
    else
      var task := s.tasks[a.t];
      match a
      case Insert(_) => task.(pc := Inserted, mark := |s.log + task.role.entries|)
      case LoadSealed(_) => task.(pc := if s.sealed then Wait else Schedule)
      case SwapFlag(_) => task.(pc := if s.drainInFlight then Done else Spawning)
      case Acquire(_) => task.(pc := Locked)
      case Snapshot(_) =>
        if s.pending == map[] then task.(pc := FoundNone)
        else task.(pc := Writing, batch := s.pending, asOf := |s.log|)
      case Persist(_, _) => task.(pc := Written)
      case Finish(_) => task.(pc := Wrote)
      case Release(_) => task.(pc := if task.pc.Wrote? then Wait else if task.role.Drain? then Clear else Done)
      case ClearFlag(_) => task.(pc := Check)
      case CheckWork(_) => task.(pc := if s.pending == map[] then Done else Reclaim)
      case ReclaimFlag(_) => task.(pc := if s.drainInFlight then Done else Wait)
      case Seal(_) => task.(pc := Wait)
      case Cancel(_, _) => task.(pc := Cancelled)
      case _ => task.(pc := Done)
  }

  function Step(s: State, a: Action): State
    requires Enabled(s, a)
  {
    State(
      pending :=
        match a
        case Insert(t) => WriteThrough(s.pending, s.tasks[t].role.entries)
        case Finish(t) => Unwritten(s.pending, s.tasks[t].batch)
        case _ => s.pending,
      backend := if Writes(a) then Upsert(s.backend, s.tasks[a.t].batch) else s.backend,
      sealed := s.sealed || a.Seal?,
      drainInFlight :=
        match a
        case SwapFlag(_) => true
        case ReclaimFlag(_) => true
        case ClearFlag(_) => false
        case _ => s.drainInFlight,
      lock :=
        match a
        case Acquire(t) => Some(t)
        case Release(_) => None
        case Cancel(t, _) => if s.lock == Some(t) then None else s.lock
        case _ => s.lock,
      tasks :=
        if a.Spawn? then s.tasks[a.t := Move(s, a)][a.drain := NewTask(Drain, s.log)]
        else s.tasks[a.t := Move(s, a)],
      base := s.base,
      log := if a.Insert? then s.log + s.tasks[a.t].role.entries else s.log,
      handed :=
        match a
        case Snapshot(_) => if s.pending == map[] then |s.log| else s.handed
        case Persist(t, _) => s.tasks[t].asOf
        case Cancel(t, landed) => if landed then s.tasks[t].asOf else s.handed
        case _ => s.handed,
      sealedAt := if a.Seal? && !s.sealed then |s.log| else s.sealedAt,
      failed := s.failed || (a.Persist? && !a.ok))
  }

  function Initial(base: Table): State {
    State(map[], base, false, false, None, map[], base, [], 0, 0, false)
  }

  // -- The invariant --

  predicate Holding(pc: Pc) {
    pc.Locked? || pc.Writing? || pc.Written? || pc.Wrote? || pc.FoundNone?
  }

  predicate Over(pc: Pc) {
    pc.Done? || pc.Cancelled?
  }

  predicate InFlush(pc: Pc) {
    pc.Wait? || Holding(pc)
  }

  /** The calls that answer for `drain_in_flight`: a drain up to the point it clears the flag,
      or the queue call about to spawn one. */
  predicate Owns(task: Task) {
    task.pc.Spawning? || (task.role.Drain? && (InFlush(task.pc) || task.pc.Clear?))
  }

  predicate RoleAllows(task: Task) {
    match task.role
    case Queue(_) => task.pc.Start? || task.pc.Inserted? || task.pc.Schedule? || task.pc.Spawning? || Over(task.pc) || InFlush(task.pc)
    case Drain => task.pc.Clear? || task.pc.Check? || task.pc.Reclaim? || task.pc.Done? || InFlush(task.pc)
    case Flush => InFlush(task.pc) || Over(task.pc)
    case Disconnect => task.pc.Start? || Over(task.pc) || InFlush(task.pc)
  }

  /** A drain that has not returned looks at the pending map at least once more. */
  predicate DrainWillInspect(task: Task) {
    task.role.Drain? && !task.pc.Done?
  }

  predicate QueueNotScheduled(task: Task) {
    task.role.Queue? && (task.pc.Inserted? || task.pc.Schedule? || task.pc.Spawning?)
  }

  /** An inline or explicit flush that will take another snapshot. */
  predicate FlushWillInspect(task: Task) {
    !task.role.Drain? && InFlush(task.pc) && !task.pc.FoundNone?
  }

  ghost predicate LockOk(s: State) {
    && (s.lock.Some? ==> s.lock.value in s.tasks && Holding(s.tasks[s.lock.value].pc))
    && forall t :: t in s.tasks && Holding(s.tasks[t].pc) ==> s.lock == Some(t)
  }

  predicate OwnsAt(s: State, t: nat) {
    t in s.tasks && Owns(s.tasks[t])
  }

  ghost predicate FlagOk(s: State) {
    && (s.drainInFlight <==> exists t :: OwnsAt(s, t))
    && forall t, u :: OwnsAt(s, t) && OwnsAt(s, u) ==> t == u
  }

  /** Will still look at the pending map, not counting inline and explicit flushes. */
  predicate InspectsAt(s: State, t: nat) {
    t in s.tasks && (DrainWillInspect(s.tasks[t]) || QueueNotScheduled(s.tasks[t]))
  }

  predicate AttendsAt(s: State, t: nat) {
    InspectsAt(s, t) || (t in s.tasks && FlushWillInspect(s.tasks[t]))
  }

  ghost predicate Inspected(s: State) {
    s.pending != map[] && !s.sealed ==> exists t :: InspectsAt(s, t)
  }

  ghost predicate Attended(s: State) {
    s.pending != map[] ==> exists t :: AttendsAt(s, t)
  }

  ghost predicate WorkOk(s: State) {
    Inspected(s) && (Attended(s) || exists t :: At(s, t, Cancelled))
  }

  ghost predicate DataOk(s: State) {
    && s.handed <= |s.log|
    && (!s.failed ==>
          && Upsert(s.backend, s.pending) == WriteThrough(s.base, s.log)
          && s.backend == WriteThrough(s.base, s.log[..s.handed]))
  }

  ghost predicate WriterOk(s: State, task: Task) {
    && (task.pc.Writing? ==>
          && s.handed <= task.asOf <= |s.log|
          && ExtendsBatch(s.pending, task.batch)
          && (!s.failed ==> Upsert(s.backend, task.batch) == WriteThrough(s.base, s.log[..task.asOf])))
    && (task.pc.Written? && !s.failed ==> Holds(s.backend, task.batch))
  }

  /** The queue call's entries sit in the log, ending at its mark. */
  ghost predicate Contributed(log: seq<Entry>, task: Task) {
    && task.mark <= |log|
    && (task.role.Queue? && task.role.entries == [] ==> task.mark == 0 && (task.pc.Start? || Over(task.pc)))
    && (task.role.Queue? && task.role.entries != [] && !task.pc.Start? && !task.pc.Cancelled? ==>
          && |task.role.entries| <= task.mark
          && log[task.mark - |task.role.entries|..task.mark] == task.role.entries)
  }

  /** What a call knows from the seal flag and the snapshots it has seen. */
  predicate Seen(s: State, task: Task) {
    SeenWith(s.sealed, s.sealedAt, s.handed, task)
  }

  predicate SeenWith(sealed: bool, sealedAt: nat, handed: nat, task: Task) {
    match task.role
    case Queue(_) =>
      && (task.pc.Schedule? || task.pc.Spawning? || task.pc.Done? ==>
            !sealed || task.mark <= sealedAt || task.mark <= handed)
      && (InFlush(task.pc) ==> sealed)
      && (task.pc.FoundNone? ==> task.mark <= handed)
    case Disconnect =>
      && (!task.pc.Start? && !task.pc.Cancelled? ==> sealed)
      && (task.pc.FoundNone? || task.pc.Done? ==> sealedAt <= handed && task.mark <= handed)
    case Flush => task.pc.FoundNone? || task.pc.Done? ==> task.mark <= handed
    case Drain => true
  }

  ghost predicate CallOk(s: State, task: Task) {
    Contributed(s.log, task) && Seen(s, task)
  }

  ghost predicate RolesOk(s: State) {
    forall t :: t in s.tasks ==> RoleAllows(s.tasks[t])
  }

  ghost predicate WritersOk(s: State) {
    forall t :: t in s.tasks ==> WriterOk(s, s.tasks[t])
  }

  ghost predicate CallsOk(s: State) {
    && (s.sealed ==> s.sealedAt <= |s.log|)
    && forall t :: t in s.tasks ==> CallOk(s, s.tasks[t])
  }

  ghost predicate Inv(s: State) {
    RolesOk(s) && LockOk(s) && FlagOk(s) && WorkOk(s) && DataOk(s) && WritersOk(s) && CallsOk(s)
  }

  // -- Every step keeps it --

  /** A step moves its own task, and a spawn adds a drain; every other task stays put. */
  lemma StepFrame(s: State, a: Action)
    requires Enabled(s, a)
    ensures a.t in Step(s, a).tasks
    ensures forall u :: u in s.tasks ==> u in Step(s, a).tasks
    ensures forall u :: u in s.tasks && u != a.t ==> Step(s, a).tasks[u] == s.tasks[u]
    ensures forall u :: u in Step(s, a).tasks ==>
              u in s.tasks || u == a.t || (a.Spawn? && u == a.drain && Step(s, a).tasks[u] == NewTask(Drain, s.log))
  {
  }

  predicate HoldsAt(s: State, t: nat) {
    t in s.tasks && Holding(s.tasks[t].pc)
  }

  /** Only task `t` moved, and the lock followed it. */
  lemma LockFollowsHolder(s: State, s': State, t: nat)
    requires LockOk(s)
    requires forall u :: u != t ==> HoldsAt(s', u) == HoldsAt(s, u)
    requires if HoldsAt(s, t) == HoldsAt(s', t) then s'.lock == s.lock
             else if HoldsAt(s', t) then s.lock == None && s'.lock == Some(t)
             else s'.lock == None
    ensures LockOk(s')
  {
    assert s.lock.Some? ==> HoldsAt(s, s.lock.value);
    assert s'.lock.Some? ==> HoldsAt(s', s'.lock.value);
    forall u | u in s'.tasks && Holding(s'.tasks[u].pc)
      ensures s'.lock == Some(u)
    {
      assert HoldsAt(s', u);
    }
  }

  lemma MoveHolds(s: State, a: Action)
    requires Enabled(s, a)
    ensures Holding(Move(s, a).pc) <==> a.Acquire? || (HoldsAt(s, a.t) && !a.Release? && !a.Cancel?)
    ensures a.Release? ==> HoldsAt(s, a.t)
  {
  }

  lemma StepKeepsLock(s: State, a: Action)
    requires LockOk(s) && Enabled(s, a)
    ensures LockOk(Step(s, a))
  {
    MoveHolds(s, a);
    LockFollowsHolder(s, Step(s, a), a.t);
  }

  /** Only task `t` moved, and the flag followed it. */
  lemma FlagFollowsOwner(s: State, s': State, t: nat)
    requires FlagOk(s)
    requires forall u :: u != t ==> OwnsAt(s', u) == OwnsAt(s, u)
    requires if OwnsAt(s, t) == OwnsAt(s', t) then s'.drainInFlight == s.drainInFlight
             else s'.drainInFlight == OwnsAt(s', t) && (OwnsAt(s', t) ==> !s.drainInFlight)
    ensures FlagOk(s')
  {
  }

  lemma MoveOwns(s: State, a: Action)
    requires Enabled(s, a) && (a.t in s.tasks ==> RoleAllows(s.tasks[a.t]))
    ensures a.ClearFlag? || a.Spawn? ==> OwnsAt(s, a.t) && !Owns(Move(s, a))
    ensures a.SwapFlag? || a.ReclaimFlag? ==> !OwnsAt(s, a.t) && Owns(Move(s, a)) == !s.drainInFlight
    ensures !a.ClearFlag? && !a.Spawn? && !a.SwapFlag? && !a.ReclaimFlag? ==> Owns(Move(s, a)) == OwnsAt(s, a.t)
  {
  }

  /** A spawn passes the flag from the queue call to its drain. */
  lemma SpawnKeepsFlag(s: State, t: nat, drain: nat)
    requires FlagOk(s) && RolesOk(s) && Enabled(s, Spawn(t, drain))
    ensures FlagOk(Step(s, Spawn(t, drain)))
  {
    var a := Spawn(t, drain);
    MoveOwns(s, a);
    var mid := s.(tasks := s.tasks[t := Move(s, a)], drainInFlight := false);
    FlagFollowsOwner(s, mid, t);
    FlagFollowsOwner(mid, Step(s, a), drain);
  }

  lemma MoveKeepsFlag(s: State, a: Action, s': State)
    requires FlagOk(s) && RolesOk(s) && Enabled(s, a) && !a.Spawn?
    requires s'.tasks == s.tasks[a.t := Move(s, a)]
    requires s'.drainInFlight == (a.SwapFlag? || a.ReclaimFlag? || (s.drainInFlight && !a.ClearFlag?))
    ensures FlagOk(s')
  {
    MoveOwns(s, a);
    FlagFollowsOwner(s, s', a.t);
  }

  lemma StepKeepsFlag(s: State, a: Action)
    requires FlagOk(s) && RolesOk(s) && Enabled(s, a)
    ensures FlagOk(Step(s, a))
  {
    if a.Spawn? {
      SpawnKeepsFlag(s, a.t, a.drain);
    } else {
      MoveKeepsFlag(s, a, Step(s, a));
    }
  }

  predicate Inspects(task: Task) {
    DrainWillInspect(task) || QueueNotScheduled(task)
  }

  /** A task that moves goes on attending, unless the map is empty or another owns the flag. */
  lemma MoveAttends(s: State, a: Action)
    requires Enabled(s, a) && a.t in s.tasks && RoleAllows(s.tasks[a.t]) && Step(s, a).pending != map[]
    requires !a.Spawn? && !a.Cancel? && !((a.SwapFlag? || a.ReclaimFlag?) && s.drainInFlight)
    ensures Inspects(s.tasks[a.t]) || FlushWillInspect(s.tasks[a.t]) ==> Inspects(Move(s, a)) || FlushWillInspect(Move(s, a))
    ensures Inspects(s.tasks[a.t]) && !s.sealed ==> Inspects(Move(s, a))
  {
  }

  /** When a task stops attending, the map is empty or another owner of the flag remains. */
  lemma StepHandsOver(s: State, a: Action, t: nat, owner: nat) returns (u: nat)
    requires Enabled(s, a) && Step(s, a).pending != map[]
    requires AttendsAt(s, t) && RoleAllows(s.tasks[t]) && (a.Cancel? ==> t != a.t)
    requires s.drainInFlight ==> OwnsAt(s, owner) && RoleAllows(s.tasks[owner])
    ensures AttendsAt(Step(s, a), u)
    ensures InspectsAt(s, t) && !s.sealed ==> InspectsAt(Step(s, a), u)
  {
    StepFrame(s, a);
    if t != a.t {
      u := t;
    } else if a.Spawn? {
      u := a.drain;
    } else if (a.SwapFlag? || a.ReclaimFlag?) && s.drainInFlight {
      u := owner;
    } else {
      u := t;
      MoveAttends(s, a);
    }
  }

  lemma FlagOwner(s: State) returns (owner: nat)
    requires RolesOk(s) && FlagOk(s)
    ensures s.drainInFlight ==> OwnsAt(s, owner) && RoleAllows(s.tasks[owner])
  {
    owner := 0;
    if s.drainInFlight {
      owner :| OwnsAt(s, owner);
    }
  }

  lemma CancelledStays(s: State, a: Action, t: nat)
    requires Enabled(s, a)
    ensures At(s, t, Cancelled) || (a.Cancel? && a.t == t) ==> At(Step(s, a), t, Cancelled)
  {
    StepFrame(s, a);
  }

  lemma InsertAttends(s: State, a: Action)
    requires Enabled(s, a) && s.pending == map[] && Step(s, a).pending != map[]
    ensures InspectsAt(Step(s, a), a.t)
  {
  }

  lemma StepKeepsInspected(s: State, a: Action)
    requires RolesOk(s) && FlagOk(s) && Inspected(s) && Enabled(s, a)
    ensures Inspected(Step(s, a))
  {
    if Step(s, a).pending != map[] && !Step(s, a).sealed {
      if s.pending == map[] {
        InsertAttends(s, a);
      } else {
        var owner := FlagOwner(s);
        var t :| InspectsAt(s, t);
        var _ := StepHandsOver(s, a, t, owner);
      }
    }
  }

  lemma StepKeepsAttended(s: State, a: Action)
    requires RolesOk(s) && FlagOk(s) && Attended(s) && Enabled(s, a) && !a.Cancel?
    ensures Attended(Step(s, a))
  {
    if Step(s, a).pending != map[] {
      if s.pending == map[] {
        InsertAttends(s, a);
        assert AttendsAt(Step(s, a), a.t);
      } else {
        var owner := FlagOwner(s);
        var t :| AttendsAt(s, t);
        var _ := StepHandsOver(s, a, t, owner);
      }
    }
  }

  lemma StepKeepsWork(s: State, a: Action)
    requires RolesOk(s) && FlagOk(s) && WorkOk(s) && Enabled(s, a)
    ensures WorkOk(Step(s, a))
  {
    StepKeepsInspected(s, a);
    if a.Cancel? {
      CancelledStays(s, a, a.t);
    } else if c :| At(s, c, Cancelled) {
      CancelledStays(s, a, c);
    } else {
      StepKeepsAttended(s, a);
    }
  }

  lemma MoveAllowed(s: State, a: Action)
    requires Enabled(s, a) && (a.t in s.tasks ==> RoleAllows(s.tasks[a.t]))
    ensures RoleAllows(Move(s, a))
  {
  }

  lemma StepKeepsRoles(s: State, a: Action)
    requires RolesOk(s) && Enabled(s, a)
    ensures RolesOk(Step(s, a))
  {
    MoveAllowed(s, a);
    StepFrame(s, a);
    forall u | u in Step(s, a).tasks
      ensures RoleAllows(Step(s, a).tasks[u])
    {
      if u != a.t && u in s.tasks {
        assert RoleAllows(s.tasks[u]);
      }
    }
  }

  lemma InsertKeepsData(s: State, t: nat)
    requires DataOk(s) && Enabled(s, Insert(t))
    ensures DataOk(Step(s, Insert(t)))
  {
    var entries := s.tasks[t].role.entries;
    WriteThroughAppend(s.base, s.log, entries);
    UpsertWriteThrough(s.backend, s.pending, entries);
    assert (s.log + entries)[..s.handed] == s.log[..s.handed];
  }

  lemma WriteKeepsData(s: State, a: Action)
    requires DataOk(s) && WritersOk(s) && Enabled(s, a) && (a.Persist? || Writes(a))
    ensures DataOk(Step(s, a))
  {
    assert WriterOk(s, s.tasks[a.t]);
    UpsertStaleBatch(s.backend, s.tasks[a.t].batch, s.pending);
  }

  lemma FinishKeepsData(s: State, t: nat)
    requires DataOk(s) && WritersOk(s) && Enabled(s, Finish(t))
    ensures DataOk(Step(s, Finish(t)))
  {
    assert WriterOk(s, s.tasks[t]);
    if !s.failed {
      UpsertUnwritten(s.backend, s.tasks[t].batch, s.pending);
    }
  }

  lemma SnapshotKeepsData(s: State, t: nat)
    requires DataOk(s) && Enabled(s, Snapshot(t))
    ensures DataOk(Step(s, Snapshot(t)))
  {
    assert s.log[..|s.log|] == s.log;
    assert Upsert(s.backend, map[]) == s.backend;
  }

  ghost predicate SameData(s: State, s': State) {
    && s'.pending == s.pending && s'.backend == s.backend && s'.base == s.base
    && s'.log == s.log && s'.handed == s.handed && s'.failed == s.failed
  }

  lemma OtherKeepsData(s: State, a: Action)
    requires Enabled(s, a) && !a.Insert? && !a.Snapshot? && !a.Persist? && !a.Finish? && !Writes(a)
    ensures SameData(s, Step(s, a))
  {
  }

  /** The refinement step: each action moves the visible table exactly as write-through would. */
  lemma StepKeepsData(s: State, a: Action)
    requires DataOk(s) && WritersOk(s) && Enabled(s, a)
    ensures DataOk(Step(s, a))
  {
    if a.Insert? {
      InsertKeepsData(s, a.t);
    } else if a.Snapshot? {
      SnapshotKeepsData(s, a.t);
    } else if a.Persist? || Writes(a) {
      WriteKeepsData(s, a);
    } else if a.Finish? {
      FinishKeepsData(s, a.t);
    } else {
      OtherKeepsData(s, a);
    }
  }

  /** The lock holder is the only task with a batch in hand. */
  lemma OtherWriterImpossible(s: State, t: nat, u: nat)
    requires LockOk(s) && t in s.tasks && u in s.tasks && t != u && Holding(s.tasks[t].pc)
    ensures !s.tasks[u].pc.Writing? && !s.tasks[u].pc.Written?
  {
  }

  lemma InsertKeepsWriter(s: State, t: nat, task: Task)
    requires DataOk(s) && WriterOk(s, task) && Enabled(s, Insert(t))
    ensures WriterOk(Step(s, Insert(t)), task)
  {
    var entries := s.tasks[t].role.entries;
    if task.pc.Writing? {
      WriteThroughKeepsExtends(s.pending, task.batch, entries);
      assert (s.log + entries)[..task.asOf] == s.log[..task.asOf];
    }
  }

  lemma SnapshotStartsWriter(s: State, t: nat)
    requires DataOk(s) && Enabled(s, Snapshot(t))
    ensures WriterOk(Step(s, Snapshot(t)), Step(s, Snapshot(t)).tasks[t])
  {
    assert s.log[..|s.log|] == s.log;
    forall k | k in s.pending
      ensures Extends(s.pending[k], s.pending[k])
    {
      MergeIdempotent(s.pending[k]);
    }
  }

  lemma MoveWrites(s: State, a: Action)
    requires Enabled(s, a)
    ensures Move(s, a).pc.Writing? ==> a.Snapshot?
    ensures Move(s, a).pc.Written? ==> a.Persist?
  {
  }

  lemma StepKeepsOwnWriter(s: State, a: Action)
    requires LockOk(s) && DataOk(s) && WritersOk(s) && Enabled(s, a)
    ensures WriterOk(Step(s, a), Step(s, a).tasks[a.t])
  {
    if a.Snapshot? {
      SnapshotStartsWriter(s, a.t);
    } else if a.Persist? {
      assert WriterOk(s, s.tasks[a.t]);
      UpsertStaleBatch(s.backend, s.tasks[a.t].batch, s.pending);
    } else {
      MoveWrites(s, a);
    }
  }

  lemma StepKeepsWriters(s: State, a: Action)
    requires LockOk(s) && DataOk(s) && WritersOk(s) && Enabled(s, a)
    ensures WritersOk(Step(s, a))
  {
    StepFrame(s, a);
    StepKeepsOwnWriter(s, a);
    var s' := Step(s, a);
    forall u | u in s.tasks && u != a.t
      ensures WriterOk(s', s.tasks[u])
    {
      assert WriterOk(s, s.tasks[u]);
      if a.Insert? {
        InsertKeepsWriter(s, a.t, s.tasks[u]);
      } else if a.Snapshot? || a.Persist? || a.Finish? || Writes(a) {
        OtherWriterImpossible(s, a.t, u);
      }
    }
  }

  /** History only grows: the log by appending, `handed` upwards, the seal once. */
  ghost predicate Grows(s: State, s': State) {
    && s.log <= s'.log
    && s.handed <= s'.handed
    && (s.sealed ==> s'.sealed && s'.sealedAt == s.sealedAt)
    && (!s.sealed && s'.sealed ==> s'.sealedAt == |s.log|)
  }

  lemma StepGrows(s: State, a: Action)
    requires DataOk(s) && WritersOk(s) && Enabled(s, a)
    ensures Grows(s, Step(s, a))
  {
  }

  lemma GrowthKeepsCall(s: State, s': State, task: Task)
    requires Grows(s, s') && CallOk(s, task)
    ensures CallOk(s', task)
  {
  }

  lemma MoveKeepsIdentity(s: State, a: Action)
    requires Enabled(s, a) && a.t in s.tasks && !a.Insert?
    ensures Step(s, a).log == s.log
    ensures Step(s, a).tasks[a.t].role == s.tasks[a.t].role && Step(s, a).tasks[a.t].mark == s.tasks[a.t].mark
    ensures !Step(s, a).tasks[a.t].pc.Start?
  {
  }

  lemma ContributedAnywhere(log: seq<Entry>, task: Task, task': Task)
    requires Contributed(log, task) && !task.pc.Cancelled? && task'.role == task.role && task'.mark == task.mark && !task'.pc.Start?
    requires task.pc.Start? && task.role.Queue? ==> task.role.entries == [] || task'.pc.Cancelled?
    requires task.role.Queue? && task.role.entries == [] ==> Over(task'.pc)
    ensures Contributed(log, task')
  {
  }

  lemma MoveKeepsContributed(s: State, a: Action)
    requires Enabled(s, a) && a.t in s.tasks && !a.Insert?
    requires Contributed(s.log, s.tasks[a.t]) && RoleAllows(s.tasks[a.t])
    ensures Contributed(Step(s, a).log, Step(s, a).tasks[a.t])
  {
    MoveKeepsIdentity(s, a);
    ContributedAnywhere(s.log, s.tasks[a.t], Step(s, a).tasks[a.t]);
  }

  /** The move alone, given what the step does to the seal and to `handed`. */
  lemma MoveKeepsSeenWith(s: State, a: Action, sealed: bool, sealedAt: nat, handed: nat)
    requires Enabled(s, a) && a.t in s.tasks && !a.Insert? && RoleAllows(s.tasks[a.t])
    requires var task := s.tasks[a.t];
             && task.mark <= |s.log|
             && (task.role == Queue([]) ==> task.mark == 0)
             && SeenWith(sealed, sealedAt, handed, task)
    requires sealed == (s.sealed || a.Seal?) && (sealed ==> sealedAt <= |s.log|)
    requires a.Snapshot? && s.pending == map[] ==> handed == |s.log|
    ensures SeenWith(sealed, sealedAt, handed, Move(s, a))
  {
  }

  /** From the grown history, a caller's own move. */
  lemma MoveKeepsSeen(s: State, a: Action)
    requires Enabled(s, a) && a.t in s.tasks && !a.Insert?
    requires s.sealed ==> s.sealedAt <= |s.log|
    requires Contributed(s.log, s.tasks[a.t]) && RoleAllows(s.tasks[a.t])
    requires Seen(Step(s, a), s.tasks[a.t])
    ensures Seen(Step(s, a), Step(s, a).tasks[a.t])
  {
    var s' := Step(s, a);
    MoveKeepsSeenWith(s, a, s'.sealed, s'.sealedAt, s'.handed);
  }

  lemma InsertKeepsOwnCall(s: State, t: nat)
    requires Enabled(s, Insert(t))
    ensures CallOk(Step(s, Insert(t)), Step(s, Insert(t)).tasks[t])
  {
  }

  lemma MoveKeepsCall(s: State, a: Action)
    requires Enabled(s, a) && (a.t in s.tasks ==> RoleAllows(s.tasks[a.t]) && CallOk(s, s.tasks[a.t]))
    requires DataOk(s) && (s.sealed ==> s.sealedAt <= |s.log|) && Grows(s, Step(s, a))
    ensures CallOk(Step(s, a), Step(s, a).tasks[a.t])
  {
    if a.Insert? {
      InsertKeepsOwnCall(s, a.t);
    } else if !a.Call? {
      GrowthKeepsCall(s, Step(s, a), s.tasks[a.t]);
      MoveKeepsContributed(s, a);
      MoveKeepsSeen(s, a);
    }
  }

  lemma StepKeepsCalls(s: State, a: Action)
    requires RolesOk(s) && DataOk(s) && CallsOk(s) && WritersOk(s) && Enabled(s, a)
    ensures CallsOk(Step(s, a))
  {
    var s' := Step(s, a);
    StepFrame(s, a);
    StepGrows(s, a);
    MoveKeepsCall(s, a);
    forall u | u in s'.tasks
      ensures CallOk(s', s'.tasks[u])
    {
      if u in s.tasks && u != a.t {
        GrowthKeepsCall(s, s', s.tasks[u]);
      }
    }
  }

  lemma StepKeepsInv(s: State, a: Action)
    requires Inv(s) && Enabled(s, a)
    ensures Inv(Step(s, a))
  {
    StepKeepsRoles(s, a);
    StepKeepsLock(s, a);
    StepKeepsFlag(s, a);
    StepKeepsWork(s, a);
    StepKeepsData(s, a);
    StepKeepsWriters(s, a);
    StepKeepsCalls(s, a);
  }

  // -- Whole runs --

  ghost predicate Starts(s: State) {
    exists base :: s == Initial(base)
  }

  /** A run visits a sequence of states, each reached from the last by one enabled action. */
  ghost predicate IsRun(run: seq<State>) {
    && |run| > 0
    && Starts(run[0])
    && forall i :: 0 < i < |run| ==> Follows(run[i - 1], run[i])
  }

  ghost predicate Follows(s: State, s': State) {
    exists a :: Enabled(s, a) && s' == Step(s, a)
  }

  lemma {:induction false} RunKeepsInv(run: seq<State>, i: nat)
    requires IsRun(run) && i < |run|
    ensures Inv(run[i])
    decreases i
  {
    if i == 0 {
      var base :| run[0] == Initial(base);
      assert Upsert(base, map[]) == base;
    } else {
      RunKeepsInv(run, i - 1);
      assert Follows(run[i - 1], run[i]);
      var a :| Enabled(run[i - 1], a) && run[i] == Step(run[i - 1], a);
      StepKeepsInv(run[i - 1], a);
    }
  }

  /** Write-behind refines write-through. In every state of every run whose backend writes
      succeed, the backend alone is a prefix of the write-through history and the backend
      merged with the pending rows is all of it. */
  lemma WriteBehindRefinesWriteThrough(run: seq<State>, i: nat)
    requires IsRun(run) && i < |run| && !run[i].failed
    ensures Upsert(run[i].backend, run[i].pending) == WriteThrough(run[i].base, run[i].log)
    ensures run[i].handed <= |run[i].log|
    ensures run[i].backend == WriteThrough(run[i].base, run[i].log[..run[i].handed])
    ensures run[i].pending == map[] ==> run[i].backend == WriteThrough(run[i].base, run[i].log)
  {
    RunKeepsInv(run, i);
    assert run[i].pending == map[] ==> Upsert(run[i].backend, run[i].pending) == run[i].backend;
  }

  /** The drain flag is up exactly when one task answers for it, and pending rows always have
      someone who will still look: before the seal a drain or a queue call short of its
      scheduling step, whatever else is cancelled; after it, unless a call was cancelled, also an
      inline flush. */
  lemma NoStrandedWork(run: seq<State>, i: nat)
    requires IsRun(run) && i < |run|
    ensures run[i].drainInFlight <==> exists t :: OwnsAt(run[i], t)
    ensures forall t, u :: OwnsAt(run[i], t) && OwnsAt(run[i], u) ==> t == u
    ensures run[i].pending != map[] && !run[i].sealed ==> exists t :: InspectsAt(run[i], t)
    ensures run[i].pending != map[] ==> (exists t :: AttendsAt(run[i], t)) || exists t :: At(run[i], t, Cancelled)
  {
    RunKeepsInv(run, i);
  }

  /** No call of a sealed buffer was dropped. */
  ghost predicate NoneDroppedAfterSeal(s: State) {
    s.sealed ==> forall t :: t in s.tasks ==> !s.tasks[t].pc.Cancelled?
  }

  lemma QuiescentState(s: State)
    requires RolesOk(s) && LockOk(s) && FlagOk(s) && WorkOk(s)
    requires forall t :: t in s.tasks ==> Over(s.tasks[t].pc)
    ensures NoneDroppedAfterSeal(s) ==> s.pending == map[]
    ensures !s.drainInFlight && s.lock == None
  {
    assert forall t :: !InspectsAt(s, t) && !AttendsAt(s, t) && !OwnsAt(s, t);
  }

  /** Once every task is over the flag and the lock are free. Nothing is then pending, so that every
      capture is in the backend, unless a call was cancelled and the buffer is sealed. */
  lemma QuiescentMeansDurable(run: seq<State>, i: nat)
    requires IsRun(run) && i < |run|
    requires forall t :: t in run[i].tasks ==> Over(run[i].tasks[t].pc)
    ensures NoneDroppedAfterSeal(run[i]) ==> run[i].pending == map[]
    ensures run[i].pending == map[] && !run[i].failed ==> run[i].backend == WriteThrough(run[i].base, run[i].log)
    ensures !run[i].drainInFlight && run[i].lock == None
  {
    RunKeepsInv(run, i);
    QuiescentState(run[i]);
    if !run[i].failed {
      WriteBehindRefinesWriteThrough(run, i);
    }
  }

  /** The steps a scheduler can take without a new call arriving. */
  predicate Internal(a: Action) {
    !a.Call?
  }

  /** While a task is not over, it or the holder of the lock it waits for can step. */
  lemma SomeStep(s: State, t: nat) returns (a: Action)
    requires RolesOk(s) && LockOk(s) && t in s.tasks && !Over(s.tasks[t].pc)
    ensures Internal(a) && !a.Cancel? && Enabled(s, a)
  {
    var u := if s.tasks[t].pc.Wait? && s.lock.Some? then s.lock.value else t;
    var task := s.tasks[u];
    var unused := TaskSums.FreshId(s.tasks.Keys);
    a := match task.pc
      case Start =>
        if task.role.Disconnect? then Seal(u) else if task.role.entries == [] then ReturnEmpty(u) else Insert(u)
      case Inserted => LoadSealed(u)
      case Schedule => SwapFlag(u)
      case Spawning => Spawn(u, unused)
      case Wait => Acquire(u)
      case Locked => Snapshot(u)
      case Writing => Persist(u, true)
      case Written => Finish(u)
      case Wrote => Release(u)
      case FoundNone => Release(u)
      case Clear => ClearFlag(u)
      case Check => CheckWork(u)
      case Reclaim => ReclaimFlag(u);
  }

  /** No deadlock: while some task has neither returned nor been cancelled, some step is enabled that
      is neither a new call nor a cancellation. */
  lemma NoDeadlock(run: seq<State>, i: nat, t: nat)
    requires IsRun(run) && i < |run|
    requires t in run[i].tasks && !Over(run[i].tasks[t].pc)
    ensures exists a :: Internal(a) && !a.Cancel? && Enabled(run[i], a)
  {
    RunKeepsInv(run, i);
    var _ := SomeStep(run[i], t);
  }

  /** Shutdown completeness. When a disconnect (seal, then flush) and a queue call have both
      returned, however they raced, the queue call's entries lie in the part of the log that
      has been handed to the backend, and with successful writes the backend is exactly the
      write-through of that part. */
  lemma ShutdownCompleteness(run: seq<State>, i: nat, disconnect: nat, queue: nat)
    requires IsRun(run) && i < |run|
    requires At(run[i], disconnect, Done) && run[i].tasks[disconnect].role == Disconnect
    requires At(run[i], queue, Done) && run[i].tasks[queue].role.Queue?
    ensures var s, task := run[i], run[i].tasks[queue];
            && |task.role.entries| <= task.mark <= s.handed <= |s.log|
            && s.log[task.mark - |task.role.entries|..task.mark] == task.role.entries
            && (!s.failed ==> s.backend == WriteThrough(s.base, s.log[..s.handed]))
  {
    RunKeepsInv(run, i);
    assert CallOk(run[i], run[i].tasks[disconnect]);
    assert CallOk(run[i], run[i].tasks[queue]);
  }

  predicate Flushing(role: Role) {
    role.Flush? || role.Disconnect?
  }

  lemma CallMarks(s: State, s': State, t: nat)
    requires Follows(s, s') && t !in s.tasks && t in s'.tasks && Flushing(s'.tasks[t].role)
    ensures s'.tasks[t].mark == |s.log|
  {
    var a :| Enabled(s, a) && s' == Step(s, a);
    StepFrame(s, a);
  }

  lemma FollowKeepsMark(s: State, s': State, t: nat)
    requires Follows(s, s') && t in s.tasks && Flushing(s.tasks[t].role)
    ensures t in s'.tasks && s'.tasks[t].role == s.tasks[t].role && s'.tasks[t].mark == s.tasks[t].mark
  {
    var a :| Enabled(s, a) && s' == Step(s, a);
    StepFrame(s, a);
    if a.t == t {
      MoveKeepsIdentity(s, a);
    }
  }

  lemma {:induction false} MarkStays(run: seq<State>, i: nat, j: nat, t: nat)
    requires IsRun(run) && i < j < |run|
    requires t !in run[i].tasks && t in run[i + 1].tasks && Flushing(run[i + 1].tasks[t].role)
    ensures t in run[j].tasks && Flushing(run[j].tasks[t].role) && run[j].tasks[t].mark == |run[i].log|
    decreases j
  {
    assert Follows(run[j - 1], run[j]);
    if i == j - 1 {
      CallMarks(run[i], run[j], t);
    } else {
      MarkStays(run, i, j - 1, t);
      FollowKeepsMark(run[j - 1], run[j], t);
    }
  }

  /** A flush or disconnect covers its past. When one that was called at step `i` has returned, all
      that was queued before the call has been handed to the backend, and with successful writes is
      there. */
  lemma FlushCoversItsPast(run: seq<State>, i: nat, j: nat, t: nat)
    requires IsRun(run) && i < j < |run| && At(run[j], t, Done)
    requires t !in run[i].tasks && t in run[i + 1].tasks && Flushing(run[i + 1].tasks[t].role)
    ensures |run[i].log| <= run[j].handed <= |run[j].log|
    ensures !run[j].failed ==> run[j].backend == WriteThrough(run[j].base, run[j].log[..run[j].handed])
  {
    RunKeepsInv(run, j);
    MarkStays(run, i, j, t);
    assert CallOk(run[j], run[j].tasks[t]);
  }

  /** The refinement is given up only where a backend write failed. */
  lemma {:induction false} FailedIffSomeWriteFailed(run: seq<State>, n: nat)
    requires IsRun(run) && n < |run|
    ensures run[n].failed <==> exists i, t :: 0 <= i < n && WriteFails(run, i, t)
    decreases n
  {
    if n == 0 {
    } else {
      FailedIffSomeWriteFailed(run, n - 1);
      assert Follows(run[n - 1], run[n]);
      var a :| Enabled(run[n - 1], a) && run[n] == Step(run[n - 1], a);
      if a.Persist? && !a.ok {
        assert WriteFails(run, n - 1, a.t);
      }
    }
  }

  /** At step `i` the backend refuses the batch of task `t`. */
  ghost predicate WriteFails(run: seq<State>, i: nat, t: nat) {
    i + 1 < |run| && Enabled(run[i], Persist(t, false)) && run[i + 1] == Step(run[i], Persist(t, false))
  }

  // -- Reading --

  function Get(table: Table, k: Key): Option<Row> {
    if k in table then Some(table[k]) else None
  }

  /** A buffered read returns the secret write-through would, with a parent time that is never
      later; the two answers agree exactly when the backend does not know a later one. */
  lemma BufferedReadIsLatest(run: seq<State>, i: nat, k: Key)
    requires IsRun(run) && i < |run| && !run[i].failed && k in run[i].pending
    ensures k in WriteThrough(run[i].base, run[i].log)
    ensures var expected := WriteThrough(run[i].base, run[i].log)[k];
            && run[i].pending[k].secret == expected.secret
            && (forall n: nat :: LastFor(run[i].log, k, n) ==> expected.secret == run[i].log[n].row.secret)
            && run[i].pending[k].messageTs <= expected.messageTs
            && (run[i].pending[k].messageTs == expected.messageTs <==>
                  (k in run[i].backend ==> run[i].backend[k].messageTs <= run[i].pending[k].messageTs))
  {
    WriteBehindRefinesWriteThrough(run, i);
    assert k in Upsert(run[i].backend, run[i].pending);
    WriteThroughSummarizes(run[i].base, run[i].log, k);
  }

  lemma CaptureAlone(table: Table, capture: Entry)
    ensures WriteThrough(table, [capture]) == Put(table, capture)
  {
    assert [capture][..0] == [];
  }

  lemma Next(run: seq<State>, a: Action) returns (longer: seq<State>)
    requires IsRun(run) && Enabled(run[|run| - 1], a)
    ensures IsRun(longer) && longer[|longer| - 1] == Step(run[|run| - 1], a)
  {
    longer := run + [Step(run[|run| - 1], a)];
    assert Follows(run[|run| - 1], longer[|run|]);
  }

  lemma CapturedOnly(base: Table, capture: Entry) returns (run: seq<State>)
    ensures IsRun(run)
    ensures var s := run[|run| - 1];
            && s.pending == Put(map[], capture) && s.backend == base
            && s.base == base && s.log == [capture] && !s.failed
  {
    assert Starts(Initial(base));
    run := Next([Initial(base)], Call(0, Queue([capture])));
    run := Next(run, Insert(0));
    CaptureAlone(map[], capture);
    assert [] + [capture] == [capture];
  }

  /** The times do differ: capture a key whose backend row knows parent time 50 again, with an unknown
      one, and read it from the buffer before it is written. */
  lemma BufferedReadCanMissTime(k: Key, secret: seq<Byte>) returns (run: seq<State>)
    ensures IsRun(run) && !run[|run| - 1].failed
    ensures Get(run[|run| - 1].pending, k) == Some(Row(secret, 0, 0))
    ensures Get(run[|run| - 1].backend, k) == Some(Row(secret, 0, 50))
    ensures Get(WriteThrough(run[|run| - 1].base, run[|run| - 1].log), k) == Some(Row(secret, 0, 50))
  {
    var base: Table := map[k := Row(secret, 0, 50)];
    var capture := Entry(k, Row(secret, 0, 0));
    run := CapturedOnly(base, capture);
    CaptureAlone(base, capture);
  }

  /** After a miss at log length `since`: the backend answers for `k` as write-through did at
      some point no earlier, and no batch snapshotted before carries `k`. */
  ghost predicate MissOk(s: State, k: Key, since: nat, asOf: nat) {
    && since <= asOf <= |s.log|
    && Get(s.backend, k) == Get(WriteThrough(s.base, s.log[..asOf]), k)
    && forall t :: t in s.tasks ==> BatchSince(s.tasks[t], k, since)
  }

  predicate BatchSince(task: Task, k: Key, since: nat) {
    task.pc.Writing? && k in task.batch ==> since <= task.asOf
  }

  lemma StepKeepsBatchSince(s: State, a: Action, k: Key, since: nat)
    requires Enabled(s, a) && since <= |s.log|
    requires forall t :: t in s.tasks ==> BatchSince(s.tasks[t], k, since)
    ensures forall t :: t in Step(s, a).tasks ==> BatchSince(Step(s, a).tasks[t], k, since)
  {
  }

  lemma WriteKeepsMiss(s: State, a: Action, k: Key, since: nat, asOf: nat) returns (asOf': nat)
    requires WritersOk(s) && Enabled(s, a) && Writes(a) && !s.failed && MissOk(s, k, since, asOf)
    ensures MissOk(Step(s, a), k, since, asOf')
  {
    var task := s.tasks[a.t];
    assert WriterOk(s, task) && BatchSince(task, k, since);
    asOf' := if k in task.batch then task.asOf else asOf;
    StepKeepsBatchSince(s, a, k, since);
  }

  lemma StepKeepsMiss(s: State, a: Action, k: Key, since: nat, asOf: nat) returns (asOf': nat)
    requires DataOk(s) && WritersOk(s) && Enabled(s, a) && !Step(s, a).failed && MissOk(s, k, since, asOf)
    ensures MissOk(Step(s, a), k, since, asOf')
  {
    if Writes(a) {
      asOf' := WriteKeepsMiss(s, a, k, since, asOf);
    } else {
      asOf' := asOf;
      StepGrows(s, a);
      StepKeepsBatchSince(s, a, k, since);
      assert Step(s, a).log[..asOf] == s.log[..asOf];
      assert Step(s, a).backend == s.backend && Step(s, a).base == s.base;
    }
  }

  lemma MissStarts(s: State, k: Key)
    requires DataOk(s) && WritersOk(s) && !s.failed && k !in s.pending
    ensures MissOk(s, k, |s.log|, |s.log|)
  {
    assert s.log[..|s.log|] == s.log;
    assert Get(Upsert(s.backend, s.pending), k) == Get(s.backend, k);
    forall t | t in s.tasks
      ensures BatchSince(s.tasks[t], k, |s.log|)
    {
      assert WriterOk(s, s.tasks[t]);
    }
  }

  lemma FollowKeepsMiss(s: State, s': State, k: Key, since: nat, before: nat) returns (asOf: nat)
    requires DataOk(s) && WritersOk(s) && Follows(s, s') && !s'.failed && MissOk(s, k, since, before)
    ensures MissOk(s', k, since, asOf)
  {
    var a :| Enabled(s, a) && s' == Step(s, a);
    asOf := StepKeepsMiss(s, a, k, since, before);
  }

  lemma FailureIsForever(s: State, s': State)
    requires Follows(s, s')
    ensures s.failed ==> s'.failed
  {
  }

  /** One more step of a run. */
  lemma NextMiss(run: seq<State>, j: nat, k: Key, since: nat, before: nat) returns (asOf: nat)
    requires IsRun(run) && 0 < j < |run| && !run[j].failed && MissOk(run[j - 1], k, since, before)
    ensures MissOk(run[j], k, since, asOf)
  {
    RunKeepsHistory(run, j - 1);
    asOf := FollowKeepsMiss(run[j - 1], run[j], k, since, before);
  }

  lemma RunKeepsHistory(run: seq<State>, i: nat)
    requires IsRun(run) && i < |run|
    ensures DataOk(run[i]) && WritersOk(run[i])
    ensures i + 1 < |run| ==> Follows(run[i], run[i + 1])
  {
    RunKeepsInv(run, i);
    assert i + 1 < |run| ==> Follows(run[i + 1 - 1], run[i + 1]);
  }

  lemma NotFailedEarlier(run: seq<State>, j: nat)
    requires IsRun(run) && 0 < j < |run| && !run[j].failed
    ensures !run[j - 1].failed
  {
    assert Follows(run[j - 1], run[j]);
    FailureIsForever(run[j - 1], run[j]);
  }

  lemma FirstMiss(run: seq<State>, i: nat, k: Key)
    requires IsRun(run) && i < |run| && !run[i].failed && k !in run[i].pending
    ensures MissOk(run[i], k, |run[i].log|, |run[i].log|)
  {
    RunKeepsHistory(run, i);
    MissStarts(run[i], k);
  }

  lemma {:induction false} RunKeepsMiss(run: seq<State>, i: nat, j: nat, k: Key, since: nat) returns (asOf: nat)
    requires IsRun(run) && i <= j < |run| && !run[j].failed && k !in run[i].pending && since == |run[i].log|
    ensures MissOk(run[j], k, since, asOf)
    decreases j
  {
    if i == j {
      FirstMiss(run, i, k);
      asOf := since;
    } else {
      NotFailedEarlier(run, j);
      var before := RunKeepsMiss(run, i, j - 1, k, since);
      asOf := NextMiss(run, j, k, since, before);
    }
  }

  /** Two-step read-your-writes. A reader that misses in the buffer at step `i` and reads the
      backend at any later step `j` gets the answer write-through gave at some moment between
      the two, so every key queued before `i` is found and never a version older than `i`. */
  lemma TwoStepReadIsLinearizable(run: seq<State>, i: nat, j: nat, k: Key) returns (asOf: nat)
    requires IsRun(run) && i <= j < |run| && !run[j].failed && k !in run[i].pending
    ensures |run[i].log| <= asOf <= |run[j].log|
    ensures Get(run[j].backend, k) == Get(WriteThrough(run[j].base, run[j].log[..asOf]), k)
    ensures (exists n :: 0 <= n < |run[i].log| && run[i].log[n].key == k) ==> k in run[j].backend
  {
    asOf := RunKeepsMiss(run, i, j, k, |run[i].log|);
    if n :| 0 <= n < |run[i].log| && run[i].log[n].key == k {
      RunGrowsLog(run, i, j);
      assert run[j].log[..asOf][n].key == k;
      LoggedIsWritten(run[j].base, run[j].log[..asOf], n);
    }
  }

  lemma {:induction false} RunGrowsLog(run: seq<State>, i: nat, j: nat)
    requires IsRun(run) && i <= j < |run|
    ensures run[i].log <= run[j].log
    decreases j
  {
    if i == j {
    } else {
      RunGrowsLog(run, i, j - 1);
      assert Follows(run[j - 1], run[j]);
      var a :| Enabled(run[j - 1], a) && run[j] == Step(run[j - 1], a);
      RunKeepsInv(run, j - 1);
      StepGrows(run[j - 1], a);
    }
  }

  lemma {:induction false} LoggedIsWritten(base: Table, log: seq<Entry>, n: nat)
    requires n < |log|
    ensures log[n].key in WriteThrough(base, log)
    decreases |log|
  {
    if n < |log| - 1 {
      LoggedIsWritten(base, log[..|log| - 1], n);
    }
  }
}
