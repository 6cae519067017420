/**
 The single-flight `get_with`: any number of callers, interleaved at every lock and await,
 with per-key init locks that are created on demand and reclaimed by reference count.

 Reference counts are modelled as numbers that the steps update, the way `Arc` does; that
 they equal the references there are is part of what is proved. The history variables are
 `started`, `stored` and `aborted` (initializers per key) and `disturbed` (keys whose entry
 was removed, expired, evicted or overwritten from outside).
 */
module SingleFlight {
  import opened Options

  /** Where a `get_with` call stands. From `Queued` to `Dropping` it owns a clone of the init
      lock; from `Inside` to `Leaving` it holds the lock's guard. */
  datatype Pc =
    | Peeking
    | Missed
    | Queued
    | Inside
    | Initializing
    | Computed
    | Leaving
    | Reclaiming
    | Dropping
    | Done
    | Cancelled

  datatype Task<K, V> = Task(key: K, pc: Pc, lock: nat, ran: bool, value: Option<V>)

  datatype State<K, V> = State(
    cache: map<K, V>,
    locks: map<K, nat>,
    refs: map<nat, int>,
    owner: map<nat, nat>,
    tasks: map<nat, Task<K, V>>,
    nextLock: nat,
    disabled: bool,
    started: multiset<K>,
    stored: multiset<K>,
    aborted: multiset<K>,
    disturbed: set<K>)

  datatype Action<K, V> =
    | Call(t: nat, key: K)
    | Peek(t: nat)
    | CloneLock(t: nat)
    | EnterLock(t: nat)
    | Recheck(t: nat)
    | Produce(t: nat, produced: V)
    | Store(t: nat, evicted: set<K>)
    | Leave(t: nat)
    | Reclaim(t: nat)
    | DropClone(t: nat)
    | Cancel(t: nat)
    | RemoveEntry(gone: K)
    | Overwrite(over: K, with: V)
    | SweepLocks

  predicate ByTask<K, V>(a: Action<K, V>) {
    !a.RemoveEntry? && !a.Overwrite? && !a.SweepLocks?
  }

  predicate HasClone(pc: Pc) {
    pc.Queued? || InGuard(pc) || pc.Reclaiming? || pc.Dropping?
  }

  predicate InGuard(pc: Pc) {
    pc.Inside? || Running(pc) || pc.Leaving?
  }

  /** Between double-check and insertion: the initializer is this caller's to run. */
  predicate Running(pc: Pc) {
    pc.Initializing? || pc.Computed?
  }

  /** Between lock acquisition and reclaim. */
  predicate InUse(pc: Pc) {
    HasClone(pc) && !pc.Dropping?
  }

  ghost predicate At<K, V>(s: State<K, V>, t: nat, pc: Pc) {
    t in s.tasks && s.tasks[t].pc == pc
  }

  ghost predicate Enabled<K, V>(s: State<K, V>, a: Action<K, V>) {
    match a
    case Call(t, _) => t !in s.tasks
    case Peek(t) => At(s, t, Peeking)
    case CloneLock(t) => At(s, t, Missed)
    case EnterLock(t) => At(s, t, Queued) && s.tasks[t].lock !in s.owner
    case Recheck(t) => At(s, t, Inside)
    case Produce(t, _) => At(s, t, Initializing)
    case Store(t, evicted) => At(s, t, Computed) && s.tasks[t].key !in evicted
    case Leave(t) => At(s, t, Leaving)
    case Reclaim(t) => At(s, t, Reclaiming)
    case DropClone(t) => At(s, t, Dropping)
    case Cancel(t) => t in s.tasks && !s.tasks[t].pc.Done? && !s.tasks[t].pc.Cancelled?
    case RemoveEntry(_) => true
    case Overwrite(_, _) => true
    case SweepLocks => true
  }

  /** The lock a caller clones: the one in the map, or a new one it puts there. */
  ghost function LockFor<K, V>(s: State<K, V>, k: K): nat {
    if k in s.locks then s.locks[k] else s.nextLock
  }

  ghost function StrongCount<K, V>(s: State<K, V>, l: nat): int {
    if l in s.refs then s.refs[l] else 0
  }

  /** `strong_count <= 2` and the map still holds this very lock. */
  ghost predicate Reclaims<K, V>(s: State<K, V>, t: nat)
    requires t in s.tasks
  {
    StrongCount(s, s.tasks[t].lock) <= 2 && s.tasks[t].key in s.locks && s.locks[s.tasks[t].key] == s.tasks[t].lock
  }

  /** `retain` keeps the locks someone besides the map still references. */
  ghost predicate Retained<K, V>(s: State<K, V>, k: K)
    requires k in s.locks
  {
    StrongCount(s, s.locks[k]) > 1
  }

  ghost function Move<K, V>(s: State<K, V>, a: Action<K, V>): Task<K, V>
    requires ByTask(a) && Enabled(s, a)
  {
    if a.Call? then Task(a.key, Peeking, 0, false, None)
    else
      var task := s.tasks[a.t];
      match a
      case Peek(_) =>
        if task.key in s.cache then task.(pc := Done, value := Some(s.cache[task.key])) else task.(pc := Missed)
      case CloneLock(_) => task.(pc := Queued, lock := LockFor(s, task.key))
      case EnterLock(_) => task.(pc := Inside)
      case Recheck(_) =>
        if task.key in s.cache then task.(pc := Leaving, value := Some(s.cache[task.key]))
        else task.(pc := Initializing, ran := true)
      case Produce(_, v) => task.(pc := Computed, value := Some(v))
      case Store(_, _) => task.(pc := Leaving)
      case Leave(_) => task.(pc := Reclaiming)
      case Reclaim(_) => task.(pc := Dropping)
      case DropClone(_) => task.(pc := Done)
      case _ => task.(pc := Cancelled)
  }

  ghost function Step<K, V>(s: State<K, V>, a: Action<K, V>): State<K, V>
    requires Enabled(s, a)
  {
    State(
      cache :=
        match a
        case Store(t, evicted) =>
          if s.disabled || s.tasks[t].value.None? then s.cache
          else (s.cache - evicted)[s.tasks[t].key := s.tasks[t].value.value]
        case RemoveEntry(k) => s.cache - {k}
        case Overwrite(k, v) => s.cache[k := v]
        case _ => s.cache,
      locks :=
        match a
        case CloneLock(t) => s.locks[s.tasks[t].key := LockFor(s, s.tasks[t].key)]
        case Reclaim(t) => if Reclaims(s, t) then s.locks - {s.tasks[t].key} else s.locks
        case SweepLocks => map k | k in s.locks && Retained(s, k) :: s.locks[k]
        case _ => s.locks,
      refs := NextRefs(s, a),
      owner :=
        match a
        case EnterLock(t) => s.owner[s.tasks[t].lock := t]
        case Leave(t) => s.owner - {s.tasks[t].lock}
        case Cancel(t) => if InGuard(s.tasks[t].pc) then s.owner - {s.tasks[t].lock} else s.owner
        case _ => s.owner,
      tasks := if ByTask(a) then s.tasks[a.t := Move(s, a)] else s.tasks,
      nextLock := if a.CloneLock? && s.tasks[a.t].key !in s.locks then s.nextLock + 1 else s.nextLock,
      disabled := s.disabled,
      started :=
        if a.Recheck? && s.tasks[a.t].key !in s.cache then s.started + multiset{s.tasks[a.t].key} else s.started,
      stored := if a.Store? then s.stored + multiset{s.tasks[a.t].key} else s.stored,
      aborted :=
        if a.Cancel? && Running(s.tasks[a.t].pc) then s.aborted + multiset{s.tasks[a.t].key} else s.aborted,
      disturbed :=
        match a
        case Store(_, evicted) => s.disturbed + evicted
        case RemoveEntry(k) => s.disturbed + {k}
        case Overwrite(k, _) => s.disturbed + {k}
        case _ => s.disturbed)
  }

  /** Strong counts: one per map entry and one per clone, as the steps count them. */
  ghost function NextRefs<K, V>(s: State<K, V>, a: Action<K, V>): map<nat, int>
    requires Enabled(s, a)
  {
    match a
    case CloneLock(t) =>
      var l := LockFor(s, s.tasks[t].key);
      s.refs[l := if s.tasks[t].key in s.locks then StrongCount(s, l) + 1 else 2]
    case Reclaim(t) => if Reclaims(s, t) then Decremented(s, s.tasks[t].lock) else s.refs
    case DropClone(t) => Decremented(s, s.tasks[t].lock)
    case Cancel(t) => if HasClone(s.tasks[t].pc) then Decremented(s, s.tasks[t].lock) else s.refs
    case SweepLocks =>
      map l | l in s.refs ::
        if exists k :: k in s.locks && s.locks[k] == l && !Retained(s, k) then s.refs[l] - 1 else s.refs[l]
    case _ => s.refs
  }

  ghost function Decremented<K, V>(s: State<K, V>, l: nat): map<nat, int> {
    s.refs[l := StrongCount(s, l) - 1]
  }

  ghost function Initial<K, V>(disabled: bool): State<K, V> {
    State(map[], map[], map[], map[], map[], 0, disabled, multiset{}, multiset{}, multiset{}, {})
  }

  // -- The invariant --

  ghost predicate Clone<K, V>(task: Task<K, V>, l: nat) {
    HasClone(task.pc) && task.lock == l
  }

  ghost function Clones<K, V>(s: State<K, V>, l: nat): set<nat> {
    set t | t in s.tasks && Clone(s.tasks[t], l)
  }

  ghost predicate Mapped<K, V>(s: State<K, V>, l: nat) {
    exists k :: k in s.locks && s.locks[k] == l
  }

  ghost predicate LockMapOk<K, V>(s: State<K, V>) {
    && (forall k :: k in s.locks ==> s.locks[k] < s.nextLock)
    && (forall k, k' :: k in s.locks && k' in s.locks && s.locks[k] == s.locks[k'] ==> k == k')
  }

  ghost predicate TaskLockOk<K, V>(s: State<K, V>, task: Task<K, V>) {
    && (HasClone(task.pc) ==> task.lock < s.nextLock)
    && (InUse(task.pc) ==> task.key in s.locks && s.locks[task.key] == task.lock)
  }

  ghost predicate LocksOk<K, V>(s: State<K, V>) {
    && LockMapOk(s)
    && (forall t :: t in s.tasks ==> TaskLockOk(s, s.tasks[t]))
  }

  ghost predicate RefsOk<K, V>(s: State<K, V>) {
    && (forall l :: l in s.refs <==> 0 <= l < s.nextLock)
    && (forall l: nat :: l < s.nextLock ==> RefOk(s, l))
  }

  /** The count is the number of references: the map's, if it has one, and the clones. */
  ghost predicate RefOk<K, V>(s: State<K, V>, l: nat) {
    l in s.refs && s.refs[l] == Bit(Mapped(s, l)) + |Clones(s, l)|
  }

  function Bit(b: bool): nat {
    if b then 1 else 0
  }

  ghost predicate OwnerOk<K, V>(s: State<K, V>) {
    && (forall l :: l in s.owner ==> GuardedAt(s, s.owner[l]) && s.tasks[s.owner[l]].lock == l)
    && (forall t :: GuardedAt(s, t) ==> s.tasks[t].lock in s.owner && s.owner[s.tasks[t].lock] == t)
  }

  ghost predicate GuardedAt<K, V>(s: State<K, V>, t: nat) {
    t in s.tasks && InGuard(s.tasks[t].pc)
  }

  // -- Every step keeps the locks and counts --

  lemma OneMemberChanged(a: set<nat>, b: set<nat>, t: nat)
    requires forall u :: u != t ==> (u in a <==> u in b)
    ensures |b| == |a| - Bit(t in a) + Bit(t in b)
  {
    assert a - {t} == b - {t};
    assert t in a ==> a == (a - {t}) + {t};
    assert t in b ==> b == (b - {t}) + {t};
  }

  lemma ClonesAfterMove<K, V>(s: State<K, V>, s': State<K, V>, t: nat, l: nat)
    requires t in s'.tasks && s'.tasks == s.tasks[t := s'.tasks[t]]
    ensures |Clones(s', l)| == |Clones(s, l)| - Bit(t in s.tasks && Clone(s.tasks[t], l)) + Bit(Clone(s'.tasks[t], l))
  {
    OneMemberChanged(Clones(s, l), Clones(s', l), t);
  }

  /** A lock nobody has issued yet has no clones. */
  lemma NewLockUnused<K, V>(s: State<K, V>)
    requires LocksOk(s)
    ensures Clones(s, s.nextLock) == {} && !Mapped(s, s.nextLock)
  {
  }

  lemma CloneLockKeepsRefs<K, V>(s: State<K, V>, t: nat, l: nat)
    requires LocksOk(s) && Enabled(s, CloneLock(t)) && l <= s.nextLock
    requires l < s.nextLock ==> RefOk(s, l)
    ensures l < Step(s, CloneLock(t)).nextLock ==> RefOk(Step(s, CloneLock(t)), l)
  {
    var s' := Step(s, CloneLock(t));
    var k := s.tasks[t].key;
    NewLockUnused(s);
    ClonesAfterMove(s, s', t, l);
    if k' :| k' in s.locks && s.locks[k'] == l {
      assert k' in s'.locks && s'.locks[k'] == l;
    }
    assert k in s'.locks && s'.locks[k] == LockFor(s, k);
  }

  lemma ReclaimKeepsRefs<K, V>(s: State<K, V>, t: nat, l: nat)
    requires LocksOk(s) && Enabled(s, Reclaim(t)) && RefOk(s, l)
    ensures RefOk(Step(s, Reclaim(t)), l)
  {
    var s' := Step(s, Reclaim(t));
    ClonesAfterMove(s, s', t, l);
    if k :| k in s.locks && s.locks[k] == l && (l != s.tasks[t].lock || !Reclaims(s, t)) {
      assert k in s'.locks && s'.locks[k] == l;
    }
  }

  /** Dropping a clone, at the end of the call or because the call was cancelled. */
  lemma DropKeepsRefs<K, V>(s: State<K, V>, a: Action<K, V>, l: nat)
    requires Enabled(s, a) && (a.DropClone? || a.Cancel?) && RefOk(s, l)
    ensures RefOk(Step(s, a), l)
  {
    ClonesAfterMove(s, Step(s, a), a.t, l);
  }

  lemma SweepKeepsRefs<K, V>(s: State<K, V>, l: nat)
    requires LocksOk(s) && RefOk(s, l)
    ensures RefOk(Step(s, SweepLocks), l)
  {
    var s' := Step(s, SweepLocks);
    assert Clones(s', l) == Clones(s, l);
    if k :| k in s.locks && s.locks[k] == l {
      assert Retained(s, k) ==> k in s'.locks && s'.locks[k] == l;
    }
  }

  lemma OtherKeepsRefs<K, V>(s: State<K, V>, a: Action<K, V>, l: nat)
    requires Enabled(s, a) && RefOk(s, l)
    requires !a.CloneLock? && !a.Reclaim? && !a.DropClone? && !a.Cancel? && !a.SweepLocks?
    ensures RefOk(Step(s, a), l)
  {
    if ByTask(a) {
      ClonesAfterMove(s, Step(s, a), a.t, l);
    } else {
      assert Clones(Step(s, a), l) == Clones(s, l);
    }
  }

  lemma StepKeepsRef<K, V>(s: State<K, V>, a: Action<K, V>, l: nat)
    requires LocksOk(s) && RefsOk(s) && Enabled(s, a) && l < Step(s, a).nextLock
    ensures RefOk(Step(s, a), l)
  {
    match a
    case CloneLock(t) => CloneLockKeepsRefs(s, t, l);
    case Reclaim(t) => ReclaimKeepsRefs(s, t, l);
    case DropClone(_) => DropKeepsRefs(s, a, l);
    case Cancel(_) => DropKeepsRefs(s, a, l);
    case SweepLocks => SweepKeepsRefs(s, l);
    case _ => OtherKeepsRefs(s, a, l);
  }

  lemma StepKeepsRefs<K, V>(s: State<K, V>, a: Action<K, V>)
    requires LocksOk(s) && RefsOk(s) && Enabled(s, a)
    ensures RefsOk(Step(s, a))
  {
    forall l: nat | l < Step(s, a).nextLock
      ensures RefOk(Step(s, a), l)
    {
      StepKeepsRef(s, a, l);
    }
  }

  /** A reclaim that fires is the last user's: nobody else is between acquisition and reclaim. */
  lemma ReclaimIsSafe<K, V>(s: State<K, V>, t: nat, u: nat)
    requires LocksOk(s) && RefsOk(s) && At(s, t, Reclaiming) && Reclaims(s, t)
    requires u in s.tasks && u != t && InUse(s.tasks[u].pc)
    ensures s.tasks[u].key != s.tasks[t].key
  {
    var l := s.tasks[t].lock;
    assert RefOk(s, l);
    assert Mapped(s, l) && t in Clones(s, l);
    OnlyMember(Clones(s, l), t);
    assert u !in Clones(s, l);
  }

  lemma OnlyMember(a: set<nat>, t: nat)
    requires t in a && |a| <= 1
    ensures a == {t}
  {
    assert |a - {t}| == 0;
  }

  lemma SweepIsSafe<K, V>(s: State<K, V>, u: nat)
    requires LocksOk(s) && RefsOk(s) && u in s.tasks && InUse(s.tasks[u].pc)
    ensures Retained(s, s.tasks[u].key)
  {
    var l := s.tasks[u].lock;
    assert RefOk(s, l);
    assert Mapped(s, l) && u in Clones(s, l);
  }

  lemma StepKeepsTaskLock<K, V>(s: State<K, V>, a: Action<K, V>, u: nat)
    requires LocksOk(s) && RefsOk(s) && Enabled(s, a) && u in s.tasks && (ByTask(a) ==> u != a.t)
    ensures TaskLockOk(Step(s, a), s.tasks[u])
  {
    if InUse(s.tasks[u].pc) {
      if a.Reclaim? && Reclaims(s, a.t) {
        ReclaimIsSafe(s, a.t, u);
      } else if a.SweepLocks? {
        SweepIsSafe(s, u);
      }
    }
  }

  lemma StepKeepsOwnLock<K, V>(s: State<K, V>, a: Action<K, V>)
    requires Enabled(s, a) && ByTask(a) && LockMapOk(s) && (a.t in s.tasks ==> TaskLockOk(s, s.tasks[a.t]))
    ensures TaskLockOk(Step(s, a), Move(s, a))
  {
  }

  lemma StepKeepsLockMap<K, V>(s: State<K, V>, a: Action<K, V>)
    requires LockMapOk(s) && Enabled(s, a)
    ensures LockMapOk(Step(s, a))
  {
  }

  lemma StepKeepsLocks<K, V>(s: State<K, V>, a: Action<K, V>)
    requires LocksOk(s) && RefsOk(s) && Enabled(s, a)
    ensures LocksOk(Step(s, a))
  {
    StepKeepsLockMap(s, a);
    forall u | u in Step(s, a).tasks
      ensures TaskLockOk(Step(s, a), Step(s, a).tasks[u])
    {
      if ByTask(a) && u == a.t {
        StepKeepsOwnLock(s, a);
      } else {
        StepKeepsTaskLock(s, a, u);
      }
    }
  }

  // -- Mutual exclusion and single flight --

  /** Only task `t` moved, and the guard followed it. */
  lemma OwnerFollowsGuard<K, V>(s: State<K, V>, s': State<K, V>, t: nat)
    requires OwnerOk(s) && t in s'.tasks && s'.tasks == s.tasks[t := s'.tasks[t]]
    requires GuardedAt(s, t) && GuardedAt(s', t) ==> s'.tasks[t].lock == s.tasks[t].lock
    requires GuardedAt(s, t) == GuardedAt(s', t) ==> s'.owner == s.owner
    requires GuardedAt(s, t) && !GuardedAt(s', t) ==> s'.owner == s.owner - {s.tasks[t].lock}
    requires !GuardedAt(s, t) && GuardedAt(s', t) ==>
               s'.tasks[t].lock !in s.owner && s'.owner == s.owner[s'.tasks[t].lock := t]
    ensures OwnerOk(s')
  {
  }

  lemma MoveGuard<K, V>(s: State<K, V>, a: Action<K, V>)
    requires ByTask(a) && Enabled(s, a)
    ensures InGuard(Move(s, a).pc) <==> a.EnterLock? || (GuardedAt(s, a.t) && !a.Leave? && !a.Cancel?)
    ensures GuardedAt(s, a.t) ==> Move(s, a).lock == s.tasks[a.t].lock
    ensures a.EnterLock? ==> !GuardedAt(s, a.t) && Move(s, a).lock == s.tasks[a.t].lock
  {
  }

  lemma StepKeepsOwner<K, V>(s: State<K, V>, a: Action<K, V>)
    requires OwnerOk(s) && Enabled(s, a)
    ensures OwnerOk(Step(s, a))
  {
    if ByTask(a) {
      MoveGuard(s, a);
      OwnerFollowsGuard(s, Step(s, a), a.t);
    } else {
      assert forall t :: GuardedAt(Step(s, a), t) == GuardedAt(s, t);
    }
  }

  /** All callers in the guarded section for one key are the same caller. */
  lemma MutualExclusion<K, V>(s: State<K, V>, t: nat, u: nat)
    requires LocksOk(s) && OwnerOk(s) && GuardedAt(s, t) && GuardedAt(s, u)
    ensures s.tasks[t].key == s.tasks[u].key ==> t == u
  {
  }

  /** The value is settled: read from the cache or stored there. */
  predicate Settled(pc: Pc) {
    pc.Leaving? || pc.Reclaiming? || pc.Dropping? || pc.Done?
  }

  ghost predicate RunningAt<K, V>(s: State<K, V>, t: nat, k: K) {
    t in s.tasks && Running(s.tasks[t].pc) && s.tasks[t].key == k
  }

  ghost predicate InFlight<K, V>(s: State<K, V>, k: K) {
    exists t :: RunningAt(s, t, k)
  }

  ghost predicate ValuesOk<K, V>(s: State<K, V>) {
    forall t :: t in s.tasks && (Settled(s.tasks[t].pc) || s.tasks[t].pc.Computed?) ==> s.tasks[t].value.Some?
  }

  ghost predicate FlightOk<K, V>(s: State<K, V>, k: K) {
    && s.stored[k] == Bit(k in s.cache)
    && s.started[k] == s.stored[k] + s.aborted[k] + Bit(InFlight(s, k))
    && (forall t :: RunningAt(s, t, k) ==> k !in s.cache)
    && (forall t :: t in s.tasks && s.tasks[t].key == k && Settled(s.tasks[t].pc) ==>
          k in s.cache && s.tasks[t].value == Some(s.cache[k]))
  }

  ghost predicate Calm<K, V>(s: State<K, V>, k: K) {
    !s.disabled && k !in s.disturbed
  }

  ghost predicate Inv<K(!new), V>(s: State<K, V>) {
    && LocksOk(s) && RefsOk(s) && OwnerOk(s) && ValuesOk(s)
    && forall k :: Calm(s, k) ==> FlightOk(s, k)
  }

  /** The steps that change whether `k` is being initialized. */
  ghost predicate Starts<K, V>(s: State<K, V>, a: Action<K, V>, k: K)
    requires Enabled(s, a)
  {
    a.Recheck? && s.tasks[a.t].key == k && k !in s.cache
  }

  ghost predicate Ends<K, V>(s: State<K, V>, a: Action<K, V>, k: K)
    requires Enabled(s, a)
  {
    (a.Store? || a.Cancel?) && RunningAt(s, a.t, k)
  }

  lemma MoveRuns<K, V>(s: State<K, V>, a: Action<K, V>, k: K)
    requires ByTask(a) && Enabled(s, a)
    ensures Running(Move(s, a).pc) && Move(s, a).key == k <==>
              Starts(s, a, k) || (RunningAt(s, a.t, k) && !Ends(s, a, k))
    ensures Starts(s, a, k) ==> GuardedAt(s, a.t) && s.tasks[a.t].key == k && !RunningAt(s, a.t, k)
  {
  }

  lemma FlightStartsAndEnds<K, V>(s: State<K, V>, a: Action<K, V>, k: K)
    requires LocksOk(s) && OwnerOk(s) && Enabled(s, a)
    ensures Starts(s, a, k) ==> !InFlight(s, k) && InFlight(Step(s, a), k)
    ensures Ends(s, a, k) ==> InFlight(s, k) && !InFlight(Step(s, a), k)
    ensures !Starts(s, a, k) && !Ends(s, a, k) ==> InFlight(Step(s, a), k) == InFlight(s, k)
  {
    var s' := Step(s, a);
    if ByTask(a) {
      MoveRuns(s, a, k);
      assert forall u :: u != a.t ==> RunningAt(s', u, k) == RunningAt(s, u, k);
      assert RunningAt(s', a.t, k) <==> Starts(s, a, k) || (RunningAt(s, a.t, k) && !Ends(s, a, k));
      if Starts(s, a, k) || Ends(s, a, k) {
        forall u | RunningAt(s, u, k)
          ensures u == a.t
        {
          MutualExclusion(s, a.t, u);
        }
      }
    } else {
      assert forall u :: RunningAt(s', u, k) == RunningAt(s, u, k);
    }
  }

  lemma StepCounts<K, V>(s: State<K, V>, a: Action<K, V>, k: K)
    requires Enabled(s, a)
    ensures Step(s, a).started[k] == s.started[k] + Bit(Starts(s, a, k))
    ensures Step(s, a).stored[k] == s.stored[k] + Bit(a.Store? && s.tasks[a.t].key == k)
    ensures Step(s, a).aborted[k] == s.aborted[k] + Bit(a.Cancel? && Ends(s, a, k))
    ensures a.Store? && s.tasks[a.t].key == k ==> Ends(s, a, k)
  {
  }

  /** A key nobody disturbs enters the cache by a store and stays. */
  lemma StepKeepsEntry<K, V>(s: State<K, V>, a: Action<K, V>, k: K)
    requires ValuesOk(s) && Enabled(s, a) && Calm(Step(s, a), k)
    ensures Calm(s, k)
    ensures k in Step(s, a).cache <==> k in s.cache || (a.Store? && s.tasks[a.t].key == k)
    ensures k in s.cache && !(a.Store? && s.tasks[a.t].key == k) ==> Step(s, a).cache[k] == s.cache[k]
    ensures a.Store? && s.tasks[a.t].key == k ==> s.tasks[a.t].value == Some(Step(s, a).cache[k])
  {
  }

  lemma StepKeepsSettled<K, V>(s: State<K, V>, a: Action<K, V>, k: K, u: nat)
    requires ValuesOk(s) && Enabled(s, a) && Calm(Step(s, a), k) && FlightOk(s, k)
    requires u in Step(s, a).tasks && Step(s, a).tasks[u].key == k && Settled(Step(s, a).tasks[u].pc)
    ensures k in Step(s, a).cache && Step(s, a).tasks[u].value == Some(Step(s, a).cache[k])
  {
    StepKeepsEntry(s, a, k);
    assert a.Store? && s.tasks[a.t].key == k ==> RunningAt(s, a.t, k);
  }

  lemma StepKeepsFlight<K, V>(s: State<K, V>, a: Action<K, V>, k: K)
    requires LocksOk(s) && OwnerOk(s) && ValuesOk(s) && Enabled(s, a)
    requires Calm(Step(s, a), k) && FlightOk(s, k)
    ensures FlightOk(Step(s, a), k)
  {
    var s' := Step(s, a);
    FlightStartsAndEnds(s, a, k);
    StepCounts(s, a, k);
    StepKeepsEntry(s, a, k);
    assert a.Store? && s.tasks[a.t].key == k ==> RunningAt(s, a.t, k);
    forall u | RunningAt(s', u, k)
      ensures k !in s'.cache
    {
      assert InFlight(s', k);
      assert RunningAt(s, u, k) || Starts(s, a, k) by {
        if ByTask(a) {
          MoveRuns(s, a, k);
        }
      }
    }
    forall u | u in s'.tasks && s'.tasks[u].key == k && Settled(s'.tasks[u].pc)
      ensures k in s'.cache && s'.tasks[u].value == Some(s'.cache[k])
    {
      StepKeepsSettled(s, a, k, u);
    }
  }

  lemma StepKeepsValues<K, V>(s: State<K, V>, a: Action<K, V>)
    requires ValuesOk(s) && Enabled(s, a)
    ensures ValuesOk(Step(s, a))
  {
  }

  lemma StepKeepsInv<K(!new), V>(s: State<K, V>, a: Action<K, V>)
    requires Inv(s) && Enabled(s, a)
    ensures Inv(Step(s, a))
  {
    StepKeepsLocks(s, a);
    StepKeepsRefs(s, a);
    StepKeepsOwner(s, a);
    StepKeepsValues(s, a);
    forall k | Calm(Step(s, a), k)
      ensures FlightOk(Step(s, a), k)
    {
      StepKeepsEntry(s, a, k);
      StepKeepsFlight(s, a, k);
    }
  }

  // -- Whole runs --

  ghost predicate Follows<K(!new), V(!new)>(s: State<K, V>, s': State<K, V>) {
    exists a :: Enabled(s, a) && s' == Step(s, a)
  }

  ghost predicate IsRun<K(!new), V(!new)>(run: seq<State<K, V>>) {
    && |run| > 0
    && run[0] == Initial(run[0].disabled)
    && forall i :: 0 < i < |run| ==> Follows(run[i - 1], run[i])
  }

  lemma InitialInv<K(!new), V>(disabled: bool)
    ensures Inv(Initial<K, V>(disabled))
  {
  }

  lemma {:induction false} RunKeepsInv<K(!new), V(!new)>(run: seq<State<K, V>>, i: nat)
    requires IsRun(run) && i < |run|
    ensures Inv(run[i])
    decreases i
  {
    if i == 0 {
      InitialInv<K, V>(run[0].disabled);
    } else {
      RunKeepsInv(run, i - 1);
      assert Follows(run[i - 1], run[i]);
      var a :| Enabled(run[i - 1], a) && run[i] == Step(run[i - 1], a);
      StepKeepsInv(run[i - 1], a);
    }
  }

  /** In every reachable state all callers for one key between lock acquisition and reclaim
      share one init lock, the one in the map: no lock still in use is ever removed. */
  lemma SharedInitLock<K(!new), V(!new)>(run: seq<State<K, V>>, i: nat, t: nat, u: nat)
    requires IsRun(run) && i < |run|
    requires t in run[i].tasks && InUse(run[i].tasks[t].pc)
    requires u in run[i].tasks && InUse(run[i].tasks[u].pc)
    requires run[i].tasks[t].key == run[i].tasks[u].key
    ensures run[i].tasks[t].lock == run[i].tasks[u].lock
    ensures run[i].tasks[t].key in run[i].locks && run[i].locks[run[i].tasks[t].key] == run[i].tasks[t].lock
  {
    RunKeepsInv(run, i);
    assert TaskLockOk(run[i], run[i].tasks[t]) && TaskLockOk(run[i], run[i].tasks[u]);
  }

  /** At most one initializer per key runs at a time, whatever is evicted, expired, removed,
      overwritten or cancelled meanwhile. */
  lemma AtMostOneInitializer<K(!new), V(!new)>(run: seq<State<K, V>>, i: nat, t: nat, u: nat, k: K)
    requires IsRun(run) && i < |run| && RunningAt(run[i], t, k) && RunningAt(run[i], u, k)
    ensures t == u
  {
    RunKeepsInv(run, i);
    MutualExclusion(run[i], t, u);
  }

  /** Single flight. Once a call for a key has returned, with caching on and the key left alone,
      exactly one initializer has stored a value, every other one that started was cancelled,
      and every call that returned got that value. Without cancellations exactly one ran. */
  lemma ExactlyOneFlight<K(!new), V(!new)>(run: seq<State<K, V>>, i: nat, t: nat, u: nat)
    requires IsRun(run) && i < |run| && At(run[i], t, Done) && At(run[i], u, Done)
    requires run[i].tasks[t].key == run[i].tasks[u].key && Calm(run[i], run[i].tasks[t].key)
    ensures var s, k := run[i], run[i].tasks[t].key;
            && s.stored[k] == 1
            && !InFlight(s, k)
            && s.started[k] == 1 + s.aborted[k]
            && k in s.cache && s.tasks[t].value == s.tasks[u].value == Some(s.cache[k])
  {
    RunKeepsInv(run, i);
    var s, k := run[i], run[i].tasks[t].key;
    assert FlightOk(s, k);
    assert forall v :: !RunningAt(s, v, k);
  }

  /** Once no call owns a clone, the housekeeping pass leaves no init lock behind. */
  lemma SweepReclaimsEverything<K(!new), V(!new)>(run: seq<State<K, V>>, i: nat)
    requires IsRun(run) && i < |run|
    requires forall t :: t in run[i].tasks ==> !HasClone(run[i].tasks[t].pc)
    ensures Step(run[i], SweepLocks).locks == map[]
  {
    RunKeepsInv(run, i);
    var s := run[i];
    forall k | k in s.locks
      ensures !Retained(s, k)
    {
      var l := s.locks[k];
      assert RefOk(s, l);
      assert Clones(s, l) == {};
    }
  }

  /** A call that has not returned can move, or waits for the init lock of its key and the call that
      holds it, for the same key, can. */
  lemma NoDeadlock<K(!new), V(!new)>(run: seq<State<K, V>>, i: nat, t: nat, v: V)
    requires IsRun(run) && i < |run|
    requires t in run[i].tasks && !run[i].tasks[t].pc.Done? && !run[i].tasks[t].pc.Cancelled?
    ensures exists a :: Moves(run[i], a) && (a.t == t || WaitsFor(run[i], t, a.t))
  {
    RunKeepsInv(run, i);
    var _ := SomeMove(run[i], t, v);
  }

  /** A step of a call towards its return. */
  ghost predicate Moves<K, V>(s: State<K, V>, a: Action<K, V>) {
    ByTask(a) && !a.Call? && !a.Cancel? && Enabled(s, a)
  }

  /** `t` queues for a lock that `u` holds, for the same key. */
  ghost predicate WaitsFor<K, V>(s: State<K, V>, t: nat, u: nat) {
    && t in s.tasks && u in s.tasks && s.tasks[t].pc.Queued? && InGuard(s.tasks[u].pc)
    && s.tasks[u].lock == s.tasks[t].lock && s.tasks[u].key == s.tasks[t].key
  }

  lemma SomeMove<K(!new), V(!new)>(s: State<K, V>, t: nat, v: V) returns (a: Action<K, V>)
    requires Inv(s) && t in s.tasks && !s.tasks[t].pc.Done? && !s.tasks[t].pc.Cancelled?
    ensures Moves(s, a) && (a.t == t || WaitsFor(s, t, a.t))
  {
    var u := if s.tasks[t].pc.Queued? && s.tasks[t].lock in s.owner then s.owner[s.tasks[t].lock] else t;
    assert TaskLockOk(s, s.tasks[t]);
    if u != t {
      assert GuardedAt(s, u) && TaskLockOk(s, s.tasks[u]);
    }
    a := match s.tasks[u].pc
      case Peeking => Peek(u)
      case Missed => CloneLock(u)
      case Queued => EnterLock(u)
      case Inside => Recheck(u)
      case Initializing => Produce(u, v)
      case Computed => Store(u, {})
      case Leaving => Leave(u)
      case Reclaiming => Reclaim(u)
      case Dropping => DropClone(u);
  }
}
