/**
 What can still happen to the offline receipt buffer, exactly: it can hold a receipt again, short
 of a reset, unless the flag is up and it is quiet; and a receipt can still be lost, short of
 another close, exactly when the outbound scope is closed.
 */
module HandoffFutures {
  import opened OfflineHandoff
  import Paths

  /** Continuations in which no reset or connect task moves, or no task closes the scope. */
  datatype Limit = NoResets | NoCloses

  predicate Allowed(limit: Limit, s: State, a: Action)
    requires a.Advance? ==> a.task < |s.tasks|
  {
    a.Advance? ==>
      match limit
      case NoResets => !s.tasks[a.task].role.Reset? && !s.tasks[a.task].role.Connect?
      case NoCloses => !s.tasks[a.task].pc.Spawned?
  }

  ghost predicate StepsTo(limit: Limit, s: State, s': State) {
    exists a :: Enabled(s, a) && Allowed(limit, s, a) && s' == Step(s, a)
  }

  ghost function Stepping(limit: Limit): (State, State) -> bool {
    (s: State, s': State) => StepsTo(limit, s, s')
  }

  ghost predicate IsPath(limit: Limit, path: seq<State>, s: State) {
    Paths.IsPath(path, s, Stepping(limit))
  }

  lemma Advanced(limit: Limit, path: seq<State>, s: State, a: Action) returns (longer: seq<State>)
    requires IsPath(limit, path, s)
    requires Enabled(path[|path| - 1], a) && Allowed(limit, path[|path| - 1], a)
    ensures IsPath(limit, longer, s) && longer == path + [Step(path[|path| - 1], a)]
  {
    longer := Paths.Extended(path, s, Step(path[|path| - 1], a), Stepping(limit));
  }

  /** What an offer past the flag check looks like. */
  predicate Checks(s: State, s': State, t: nat) {
    && t < |s'.tasks|
    && s'.tasks[t] == (if s.completed then Task(Offer, Taken, [t]) else Task(Offer, Checked, []))
    && s'.completed == s.completed && s'.closed == s.closed && s'.buffer == s.buffer && s'.lost == s.lost
  }

  lemma HolderChecks(limit: Limit, s: State, t: nat) returns (path: seq<State>)
    requires t < |s.tasks| && s.tasks[t] == Task(Offer, Locked, [])
    ensures IsPath(limit, path, s) && Checks(s, path[|path| - 1], t)
  {
    path := Advanced(limit, [s], s, Advance(t));
  }

  lemma NewOfferChecks(limit: Limit, s: State) returns (path: seq<State>)
    requires LockFree(s)
    ensures IsPath(limit, path, s) && Checks(s, path[|path| - 1], |s.tasks|)
  {
    path := Advanced(limit, [s], s, Spawn(Offer));
    assert LockFree(path[|path| - 1]);
    path := Advanced(limit, path, s, Advance(|s.tasks|));
    path := Advanced(limit, path, s, Advance(|s.tasks|));
  }

  /** Some offer can always get past the flag check, once nobody is about to push. */
  lemma OfferChecks(limit: Limit, s: State) returns (path: seq<State>, t: nat)
    requires Inv(s) && forall u :: 0 <= u < |s.tasks| ==> !s.tasks[u].pc.Checked?
    ensures IsPath(limit, path, s) && Checks(s, path[|path| - 1], t)
  {
    if h :| 0 <= h < |s.tasks| && HoldsLock(s.tasks[h]) {
      t := h;
      assert PcFits(s.tasks[t]);
      path := HolderChecks(limit, s, t);
    } else {
      t := |s.tasks|;
      path := NewOfferChecks(limit, s);
    }
  }

  // -- The buffer --

  ghost predicate CanFill(s: State) {
    exists path: seq<State> :: IsPath(NoResets, path, s) && path[|path| - 1].buffer != []
  }

  lemma StepKeepsQuiet(s: State, s': State)
    requires Inv(s) && s.completed && Quiet(s) && StepsTo(NoResets, s, s')
    ensures Inv(s') && s'.completed && Quiet(s')
  {
    var a :| Enabled(s, a) && Allowed(NoResets, s, a) && s' == Step(s, a);
    StepKeepsInv(s, a);
  }

  lemma {:induction false} PathKeepsQuiet(path: seq<State>, s: State, i: nat)
    requires Inv(s) && s.completed && Quiet(s) && IsPath(NoResets, path, s) && i < |path|
    ensures Inv(path[i]) && path[i].completed && Quiet(path[i])
    decreases i
  {
    if i == 0 {
    } else {
      PathKeepsQuiet(path, s, i - 1);
      StepKeepsQuiet(path[i - 1], path[i]);
    }
  }

  lemma UnquietFills(s: State) returns (path: seq<State>)
    requires Inv(s) && !(s.completed && Quiet(s))
    ensures IsPath(NoResets, path, s) && path[|path| - 1].buffer != []
  {
    path := [s];
    if s.buffer == [] {
      var t: nat;
      if h :| 0 <= h < |s.tasks| && s.tasks[h].pc.Checked? {
        t := h;
        assert PcFits(s.tasks[t]);
      } else {
        path, t := OfferChecks(NoResets, s);
      }
      path := Advanced(NoResets, path, s, Advance(t));
    }
  }

  /** In every reachable state: unless a reset moves, the buffer can hold a receipt now or later if
      and only if the flag is down, or the buffer is not empty, or an offer that saw the flag down
      is about to push. So a drain leaves the buffer empty for good exactly when the flag went up
      before it. */
  lemma FillsIffNotQuiet(run: seq<State>, i: nat)
    requires IsRun(run) && i < |run|
    ensures CanFill(run[i]) <==> !(run[i].completed && Quiet(run[i]))
  {
    var s := run[i];
    RunKeepsInv(run, i);
    if CanFill(s) {
      var path: seq<State> :| IsPath(NoResets, path, s) && path[|path| - 1].buffer != [];
      if s.completed && Quiet(s) {
        PathKeepsQuiet(path, s, |path| - 1);
      }
    }
    if !(s.completed && Quiet(s)) {
      var path := UnquietFills(s);
    }
  }

  // -- The outbound scope --

  ghost predicate CanLose(s: State) {
    exists path: seq<State> :: IsPath(NoCloses, path, s) && path[|path| - 1].lost != s.lost
  }

  lemma {:induction false} OpenLosesNothing(path: seq<State>, s: State, i: nat)
    requires !s.closed && IsPath(NoCloses, path, s) && i < |path|
    ensures !path[i].closed && path[i].lost == s.lost
    decreases i
  {
    if i == 0 {
    } else {
      OpenLosesNothing(path, s, i - 1);
      assert StepsTo(NoCloses, path[i - 1], path[i]);
    }
  }

  /** Raises the flag, if it is down. */
  lemma FlagUp(s: State) returns (path: seq<State>)
    requires Inv(s)
    ensures IsPath(NoCloses, path, s)
    ensures var s' := path[|path| - 1];
            && Inv(s') && s'.completed && s'.closed == s.closed && s'.buffer == s.buffer && s'.lost == s.lost
            && |s'.tasks| >= |s.tasks| && forall t :: 0 <= t < |s.tasks| ==> s'.tasks[t] == s.tasks[t]
  {
    path := [s];
    if !s.completed {
      path := Advanced(NoCloses, path, s, Spawn(Complete));
      StepKeepsInv(s, Spawn(Complete));
      path := Advanced(NoCloses, path, s, Advance(|s.tasks|));
      StepKeepsInv(Step(s, Spawn(Complete)), Advance(|s.tasks|));
    }
  }

  /** With the flag up, some offer gets its refused receipt in hand. */
  lemma SomeRefusal(s: State) returns (path: seq<State>, t: nat)
    requires Inv(s) && s.completed
    ensures IsPath(NoCloses, path, s)
    ensures var s' := path[|path| - 1];
            t < |s'.tasks| && s'.tasks[t] == Task(Offer, Taken, [t]) && s'.closed == s.closed && s'.lost == s.lost
  {
    path := [s];
    if h :| 0 <= h < |s.tasks| && s.tasks[h].pc.Checked? {
      assert PcFits(s.tasks[h]);
      path := Advanced(NoCloses, path, s, Advance(h));
      StepKeepsInv(s, Advance(h));
    }
    var rest: seq<State>;
    rest, t := OfferChecks(NoCloses, path[|path| - 1]);
    path := Paths.Joined(path, s, rest, Stepping(NoCloses));
  }

  lemma ClosedLoses(s: State) returns (path: seq<State>)
    requires Inv(s) && s.closed
    ensures IsPath(NoCloses, path, s) && path[|path| - 1].lost != s.lost
  {
    path := FlagUp(s);
    var rest, t := SomeRefusal(path[|path| - 1]);
    path := Paths.Joined(path, s, rest, Stepping(NoCloses));
    var s1 := path[|path| - 1];
    path := Advanced(NoCloses, path, s, Advance(t));
    assert |path[|path| - 1].lost| == |s1.lost| + 1;
  }

  /** In every reachable state: unless some task closes the scope, a receipt can be lost from here on
      if and only if the scope is closed now. */
  lemma LosesIffClosed(run: seq<State>, i: nat)
    requires IsRun(run) && i < |run|
    ensures CanLose(run[i]) <==> run[i].closed
  {
    var s := run[i];
    RunKeepsInv(run, i);
    if CanLose(s) {
      var path: seq<State> :| IsPath(NoCloses, path, s) && path[|path| - 1].lost != s.lost;
      if !s.closed {
        OpenLosesNothing(path, s, |path| - 1);
      }
    }
    if s.closed {
      var path := ClosedLoses(s);
    }
  }

  // -- A disconnect overtaken --

  lemma PathIsRun(path: seq<State>, s: State)
    requires IsPath(NoResets, path, s) && Starts(s)
    ensures IsRun(path)
  {
    forall i | 0 < i < |path|
      ensures Follows(path[i - 1], path[i])
    {
      assert StepsTo(NoResets, path[i - 1], path[i]);
    }
  }

  function Overtaken(): State {
    State(false, true, [0], [Task(Offer, Done, []), Task(Disconnect, Done, [])], [], [], [], [])
  }

  lemma DisconnectGoesFirst(s0: State) returns (path: seq<State>)
    requires s0 == State(false, false, [], [], [], [], [], [])
    ensures IsPath(NoResets, path, s0)
    ensures path[|path| - 1] ==
            State(false, true, [], [Task(Offer, Start, []), Task(Disconnect, Done, [])], [], [], [], [])
  {
    path := Advanced(NoResets, [s0], s0, Spawn(Offer));
    path := Advanced(NoResets, path, s0, Spawn(Disconnect));
    path := Advanced(NoResets, path, s0, Advance(1));
    path := Advanced(NoResets, path, s0, Advance(1));
  }

  /** A disconnect takes the buffer without raising the flag and closes the scope, so a worker still
      in flight buffers a receipt behind it. */
  lemma DrainWithoutFlipStrands() returns (run: seq<State>)
    ensures IsRun(run) && IsPath(NoResets, run, run[0])
    ensures run[|run| - 1] == Overtaken() && Quiescent(Overtaken()) && Overtaken().buffer == [0]
  {
    var s0 := State(false, false, [], [], [], [], [], []);
    run := DisconnectGoesFirst(s0);
    run := Advanced(NoResets, run, s0, Advance(0));
    run := Advanced(NoResets, run, s0, Advance(0));
    run := Advanced(NoResets, run, s0, Advance(0));
    PathIsRun(run, s0);
  }

  lemma CompletionLoses(path: seq<State>, s0: State) returns (longer: seq<State>)
    requires IsPath(NoResets, path, s0)
    requires path[|path| - 1] == Overtaken()
    ensures IsPath(NoResets, longer, s0)
    ensures longer[|longer| - 1] ==
            State(true, true, [], [Task(Offer, Done, []), Task(Disconnect, Done, []), Task(Complete, Done, [])], [], [], [0], [])
  {
    longer := Advanced(NoResets, path, s0, Spawn(Complete));
    longer := Advanced(NoResets, longer, s0, Advance(2));
    longer := Advanced(NoResets, longer, s0, Advance(2));
    longer := Advanced(NoResets, longer, s0, Advance(2));
  }

  /** A completion after that takes the stranded receipt, and the closed scope turns it away: the
      connection ends quiet, completed and without a reset, and no stanza was sent. */
  lemma CompletionAfterDisconnectLoses() returns (run: seq<State>)
    ensures IsRun(run)
    ensures var s := run[|run| - 1];
            NoReset(s) && Quiescent(s) && s.completed && s.lost == [0] && s.batches == [] && s.singles == []
  {
    run := DrainWithoutFlipStrands();
    var s0 := run[0];
    run := CompletionLoses(run, s0);
    PathIsRun(run, s0);
  }
}
