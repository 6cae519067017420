/**
 When the pending rows of the write-behind buffer can still reach the backend without a new
 call, exactly: unless they are stranded, which takes a dropped call in a sealed buffer.
 */
module SecretFutures {
  import opened MsgSecrets
  import opened Paths
  import opened SecretLiveness
  import opened SecretProtocol

  /** Attends the pending map, or will once it starts. */
  predicate WillLook(s: State, t: nat) {
    AttendsAt(s, t) || (At(s, t, Start) && (s.tasks[t].role.Disconnect? || ToInsert(s.tasks[t]) > 0))
  }

  /** Rows are pending that no call under way will look at. */
  ghost predicate Stranded(s: State) {
    s.pending != map[] && forall t :: !WillLook(s, t)
  }

  /** Some continuation without new calls empties the pending map. */
  ghost predicate CanDrain(s: State) {
    exists path: seq<State> :: IsPath(path, s, Undisturbed) && path[|path| - 1].pending == map[]
  }

  /** A step that is neither a new call nor a cancellation. */
  ghost predicate Undisturbed(s: State, s': State) {
    exists a :: Internal(a) && !a.Cancel? && Enabled(s, a) && s' == Step(s, a)
  }

  ghost predicate AtRest(s: State) {
    forall s' :: !Undisturbed(s, s')
  }

  // -- Not stranded: every undisturbed step keeps it so --

  lemma LookerIsNotOver(s: State, t: nat)
    requires RolesOk(s) && WillLook(s, t)
    ensures t in s.tasks && !Over(s.tasks[t].pc)
  {
  }

  /** Whoever has not started looks at the map next. */
  lemma StartAttends(s: State, a: Action)
    requires Enabled(s, a) && Internal(a) && !a.Cancel? && At(s, a.t, Start) && WillLook(s, a.t)
    ensures WillLook(Step(s, a), a.t)
  {
  }

  lemma StepKeepsLooker(s: State, a: Action, t: nat) returns (u: nat)
    requires RolesOk(s) && FlagOk(s) && Enabled(s, a) && Internal(a) && !a.Cancel?
    requires WillLook(s, t) && Step(s, a).pending != map[]
    ensures WillLook(Step(s, a), u)
  {
    if AttendsAt(s, t) {
      var owner := FlagOwner(s);
      u := StepHandsOver(s, a, t, owner);
    } else if t == a.t {
      u := t;
      StartAttends(s, a);
    } else {
      u := t;
      StepFrame(s, a);
    }
  }

  lemma StepKeepsUnstranded(s: State, a: Action)
    requires RolesOk(s) && FlagOk(s) && Enabled(s, a) && Internal(a) && !a.Cancel? && !Stranded(s)
    ensures !Stranded(Step(s, a))
  {
    if Step(s, a).pending != map[] {
      if s.pending == map[] {
        InsertAttends(s, a);
        assert WillLook(Step(s, a), a.t);
      } else {
        var t :| WillLook(s, t);
        var _ := StepKeepsLooker(s, a, t);
      }
    }
  }

  lemma ReachableIsOk(s: State)
    requires Reachable(s)
    ensures Inv(s)
  {
    var run :| IsRun(run) && run[|run| - 1] == s;
    RunKeepsInv(run, |run| - 1);
  }

  lemma NextOnTheWay(s: State) returns (next: State)
    requires Reachable(s) && !Stranded(s) && s.pending != map[]
    ensures Undisturbed(s, next) && InternalStep(s, next) && !Stranded(next)
  {
    ReachableIsOk(s);
    var t :| WillLook(s, t);
    LookerIsNotOver(s, t);
    var a := SomeStep(s, t);
    StepKeepsUnstranded(s, a);
    next := Step(s, a);
  }

  lemma {:induction false} DrainingPath(s: State) returns (path: seq<State>)
    requires Reachable(s) && !Stranded(s)
    ensures IsPath(path, s, Undisturbed) && path[|path| - 1].pending == map[]
    decreases Inserts(s), Rounds(s), Distances(s)
  {
    path := [s];
    if s.pending == map[] {
    } else {
      var next := NextOnTheWay(s);
      ReachableDescends(s, next);
      var rest := DrainingPath(next);
      var first := Extended([s], s, next, Undisturbed);
      path := Joined(first, s, rest, Undisturbed);
    }
  }

  lemma UndisturbedKeepsUnstranded(s: State, s': State)
    requires Reachable(s) && Undisturbed(s, s') && !Stranded(s)
    ensures Reachable(s') && !Stranded(s')
  {
    var a :| Internal(a) && !a.Cancel? && Enabled(s, a) && s' == Step(s, a);
    assert InternalStep(s, s');
    ReachableDescends(s, s');
    ReachableIsOk(s);
    StepKeepsUnstranded(s, a);
  }

  lemma {:induction false} UnstrandedStays(path: seq<State>, s: State)
    requires Reachable(s) && IsPath(path, s, Undisturbed) && !Stranded(s)
    ensures Reachable(path[|path| - 1]) && !Stranded(path[|path| - 1])
    decreases |path|
  {
    if |path| == 1 {
    } else {
      var n := |path| - 1;
      UnstrandedStays(path[..n], s);
      UndisturbedKeepsUnstranded(path[n - 1], path[n]);
    }
  }

  /** Not only can rows that are not stranded drain: undisturbed they do, on every schedule that
      runs until no step is left, as every schedule does. */
  lemma UnstrandedMustDrain(path: seq<State>, s: State)
    requires Reachable(s) && IsPath(path, s, Undisturbed) && !Stranded(s)
    requires AtRest(path[|path| - 1])
    ensures path[|path| - 1].pending == map[]
  {
    UnstrandedStays(path, s);
    if path[|path| - 1].pending != map[] {
      var _ := NextOnTheWay(path[|path| - 1]);
    }
  }

  // -- Stranded: no step but a new call changes it --

  /** A task that will not look can only end. */
  lemma IdleMoveEnds(s: State, a: Action)
    requires Enabled(s, a) && Internal(a) && RoleAllows(s.tasks[a.t]) && !WillLook(s, a.t)
    ensures a.ReturnEmpty? || a.Release? || (a.Cancel? && !a.landed)
    ensures Over(Move(s, a).pc) && !Move(s, a).role.Drain?
  {
  }

  lemma EndingKeepsRows(s: State, a: Action)
    requires Enabled(s, a) && (a.ReturnEmpty? || a.Release? || (a.Cancel? && !a.landed))
    ensures Step(s, a).tasks == s.tasks[a.t := Move(s, a)]
    ensures Step(s, a).pending == s.pending && Step(s, a).backend == s.backend
  {
  }

  lemma EndingKeepsStranded(s: State, s': State, t: nat, task: Task)
    requires Stranded(s) && s'.pending == s.pending
    requires s'.tasks == s.tasks[t := task] && Over(task.pc) && !task.role.Drain?
    ensures Stranded(s')
  {
    forall u
      ensures !WillLook(s', u)
    {
      assert !WillLook(s, u);
    }
  }

  lemma StepKeepsStranded(s: State, a: Action)
    requires RolesOk(s) && Enabled(s, a) && Internal(a) && Stranded(s)
    ensures Stranded(Step(s, a)) && Step(s, a).pending == s.pending && Step(s, a).backend == s.backend
  {
    IdleMoveEnds(s, a);
    EndingKeepsRows(s, a);
    EndingKeepsStranded(s, Step(s, a), a.t, Move(s, a));
  }

  lemma StepKeepsStrandedRows(s: State, s': State)
    requires Reachable(s) && InternalStep(s, s') && Stranded(s)
    ensures Reachable(s') && Stranded(s') && s'.pending == s.pending && s'.backend == s.backend
  {
    var a :| Internal(a) && Enabled(s, a) && s' == Step(s, a);
    ReachableDescends(s, s');
    ReachableIsOk(s);
    StepKeepsStranded(s, a);
  }

  /** Until a new call arrives, and whatever is cancelled, stranded rows stay where they are. */
  lemma {:induction false} StrandedStays(path: seq<State>, s: State)
    requires Reachable(s) && IsPath(path, s, InternalStep) && Stranded(s)
    ensures Stranded(path[|path| - 1])
    ensures path[|path| - 1].pending == s.pending && path[|path| - 1].backend == s.backend
    decreases |path|
  {
    if |path| == 1 {
    } else {
      var rest := Tail(path, s, InternalStep);
      StepKeepsStrandedRows(s, rest[0]);
      StrandedStays(rest, rest[0]);
    }
  }

  lemma UndisturbedIsInternal(path: seq<State>, s: State)
    requires IsPath(path, s, Undisturbed)
    ensures IsPath(path, s, InternalStep)
  {
    forall i | 0 < i < |path|
      ensures InternalStep(path[i - 1], path[i])
    {
      assert Undisturbed(path[i - 1], path[i]);
    }
  }

  lemma StrandedOnlyByDropping(s: State)
    requires WorkOk(s) && Stranded(s)
    ensures s.sealed && exists t :: At(s, t, Cancelled)
  {
    assert forall t :: AttendsAt(s, t) || InspectsAt(s, t) ==> WillLook(s, t);
  }

  /** In every reachable state the pending rows can still reach the backend without a new call if
      and only if they are not stranded; only a sealed buffer with a cancelled call can be. */
  lemma CanDrainIffNotStranded(s: State)
    requires Reachable(s)
    ensures CanDrain(s) <==> !Stranded(s)
    ensures Stranded(s) ==> s.sealed && exists t :: At(s, t, Cancelled)
  {
    if Stranded(s) {
      ReachableIsOk(s);
      StrandedOnlyByDropping(s);
      forall path: seq<State> | IsPath(path, s, Undisturbed)
        ensures path[|path| - 1].pending != map[]
      {
        UndisturbedIsInternal(path, s);
        StrandedStays(path, s);
      }
    } else {
      var _ := DrainingPath(s);
    }
  }

  // -- It does happen --

  /** A buffer that was sealed while empty. */
  lemma Sealed() returns (run: seq<State>)
    ensures IsRun(run)
    ensures run[|run| - 1] == Initial(map[]).(sealed := true, tasks := map[0 := Task(Disconnect, Wait, map[], 0, 0)])
  {
    run := [Initial(map[])];
    run := Next(run, Call(0, Disconnect));
    run := Next(run, Seal(0));
  }

  /** The disconnect then flushes, finds nothing and returns. */
  lemma Disconnected() returns (run: seq<State>)
    ensures IsRun(run)
    ensures run[|run| - 1] == Initial(map[]).(sealed := true, tasks := map[0 := Task(Disconnect, Done, map[], 0, 0)])
  {
    run := Sealed();
    run := Next(run, Acquire(0));
    run := Next(run, Snapshot(0));
    run := Next(run, Release(0));
  }

  /** A late queue call inserts its row. */
  lemma LateRow(entry: Entry) returns (run: seq<State>)
    ensures IsRun(run)
    ensures var s := run[|run| - 1];
            && s.pending == Put(map[], entry) && s.backend == map[] && s.sealed && !s.failed
            && s.tasks == map[0 := Task(Disconnect, Done, map[], 0, 0), 1 := Task(Queue([entry]), Inserted, map[], 0, 1)]
  {
    run := Disconnected();
    run := Next(run, Call(1, Queue([entry])));
    run := Next(run, Insert(1));
    CaptureAlone(map[], entry);
  }

  lemma NobodyLooks(s: State)
    requires forall t :: t in s.tasks ==> Over(s.tasks[t].pc) && !s.tasks[t].role.Drain?
    ensures forall t :: !WillLook(s, t)
  {
  }

  /** It sees the seal and is dropped while it waits for the write lock: the row is stranded. */
  lemma DroppedCallStrands(entry: Entry) returns (run: seq<State>)
    ensures IsRun(run) && Stranded(run[|run| - 1]) && !run[|run| - 1].failed
    ensures entry.key in run[|run| - 1].pending && entry.key !in run[|run| - 1].backend
  {
    run := LateRow(entry);
    run := Next(run, LoadSealed(1));
    run := Next(run, Cancel(1, false));
    NobodyLooks(run[|run| - 1]);
  }
}
