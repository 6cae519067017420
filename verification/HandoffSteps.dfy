/**
 What the calls of the receipt hand-off do once they have returned, in every run: drains take all of
 the buffer, resets discard it, disconnects close the outbound scope and connects reopen it; and the
 flag and the scope are as the last of them left them.
 */
module HandoffSteps {
  import opened OfflineHandoff
  import opened Switches

  /** At step `i` task `t` leaves the given place. */
  ghost predicate Leaves(run: seq<State>, i: nat, t: nat, pc: Pc) {
    && i + 1 < |run| && t < |run[i].tasks| && t < |run[i + 1].tasks|
    && run[i].tasks[t].pc == pc && run[i + 1].tasks[t].pc != pc
  }

  lemma LeavesBy(run: seq<State>, i: nat, t: nat, pc: Pc)
    requires IsRun(run) && Leaves(run, i, t, pc)
    ensures Enabled(run[i], Advance(t)) && run[i + 1] == StepOf(run[i], t)
  {
    assert Follows(run[i + 1 - 1], run[i + 1]);
    var a :| Enabled(run[i], a) && run[i + 1] == Step(run[i], a);
    assert a == Advance(t);
  }

  // -- What the steps do --

  /** An offer that holds the lock goes by the flag: down, it goes on to push its receipt behind all
      others; up, it keeps it in hand for the outbound scope. */
  lemma OfferGoesByFlag(run: seq<State>, i: nat, t: nat)
    requires IsRun(run) && i < |run| && t < |run[i].tasks| && run[i].tasks[t].role.Offer?
    ensures Leaves(run, i, t, Locked) ==>
            if run[i].completed then run[i + 1].tasks[t].pc == Taken && run[i + 1].tasks[t].hand == [t]
            else run[i + 1].tasks[t].pc == Checked && run[i + 1].tasks[t].hand == []
    ensures Leaves(run, i, t, Checked) ==> run[i + 1].buffer == run[i].buffer + [t] && run[i + 1].tasks[t].pc == Done
  {
    if Leaves(run, i, t, Locked) {
      LeavesBy(run, i, t, Locked);
    }
    if Leaves(run, i, t, Checked) {
      LeavesBy(run, i, t, Checked);
    }
  }

  /** Only the first completion drains: one that finds the flag up is over at once. */
  lemma FirstCompletionDrains(run: seq<State>, i: nat, t: nat)
    requires IsRun(run) && Leaves(run, i, t, Start) && run[i].tasks[t].role.Complete?
    ensures run[i + 1].tasks[t].pc == if run[i].completed then Done else Flipped
  {
    LeavesBy(run, i, t, Start);
  }

  /** A disconnect, or a completion that flipped the flag, takes the whole buffer in hand. */
  lemma DrainTakesAll(run: seq<State>, i: nat, t: nat)
    requires IsRun(run) && i < |run| && t < |run[i].tasks|
    requires if run[i].tasks[t].role.Disconnect? then Leaves(run, i, t, Start)
             else run[i].tasks[t].role.Complete? && Leaves(run, i, t, Flipped)
    ensures run[i + 1].buffer == [] && run[i + 1].tasks[t].hand == run[i].buffer
  {
    LeavesBy(run, i, t, run[i].tasks[t].pc);
  }

  /** What a task has in hand goes, whole, to the outbound scope: as one batch, or singly for an offer,
      if it is open, and is turned away if it is closed. */
  lemma SpawnHandsOver(run: seq<State>, i: nat, t: nat)
    requires IsRun(run) && Leaves(run, i, t, Taken)
    ensures var s, s' := run[i], run[i + 1];
            var hand := s.tasks[t].hand;
            && (s.closed ==> s'.lost == s.lost + hand && s'.batches == s.batches && s'.singles == s.singles)
            && (!s.closed && s.tasks[t].role.Offer? ==> s'.singles == s.singles + hand && s'.batches == s.batches)
            && (!s.closed && !s.tasks[t].role.Offer? ==> s'.batches == s.batches + [hand] && s'.singles == s.singles)
            && s'.tasks[t].hand == []
  {
    LeavesBy(run, i, t, Taken);
    RunKeepsInv(run, i);
  }

  /** A reset discards the whole buffer, and nothing else does. */
  lemma ResetDiscards(run: seq<State>, i: nat, t: nat)
    requires IsRun(run) && Leaves(run, i, t, Lowered)
    ensures run[i + 1].buffer == [] && run[i + 1].dropped == run[i].dropped + run[i].buffer
  {
    LeavesBy(run, i, t, Lowered);
  }

  // -- What a call has done when it has returned --

  ghost predicate Passed(run: seq<State>, n: nat, t: nat, pc: Pc) {
    exists i: nat :: i < n && Leaves(run, i, t, pc)
  }

  lemma PassedLater(run: seq<State>, n: nat, t: nat)
    ensures forall pc :: Passed(run, n, t, pc) ==> Passed(run, n + 1, t, pc)
    ensures forall pc :: Leaves(run, n, t, pc) ==> Passed(run, n + 1, t, pc)
  {
  }

  /** The places a call has behind it. */
  ghost predicate Behind(run: seq<State>, n: nat, t: nat)
    requires n < |run| && t < |run[n].tasks|
  {
    var pc := run[n].tasks[t].pc;
    && (!pc.Start? ==> Passed(run, n, t, Start))
    && match run[n].tasks[t].role
       case Disconnect => pc.Done? ==> Passed(run, n, t, Spawned)
       case Reset => pc.Done? ==> Passed(run, n, t, Lowered)
       case Connect =>
         && (pc.Cleared? || pc.Done? ==> Passed(run, n, t, Lowered))
         && (pc.Done? ==> Passed(run, n, t, Cleared))
       case _ => true
  }

  lemma OwnStepAddsBehind(run: seq<State>, n: nat, t: nat)
    requires IsRun(run) && n + 1 < |run| && t < |run[n].tasks| && Behind(run, n, t) && PcFits(run[n].tasks[t])
    requires Enabled(run[n], Advance(t)) && run[n + 1] == StepOf(run[n], t)
    ensures Behind(run, n + 1, t)
  {
    PassedLater(run, n, t);
    assert Leaves(run, n, t, run[n].tasks[t].pc);
  }

  lemma OtherStepKeepsBehind(run: seq<State>, n: nat, t: nat, a: Action)
    requires n + 1 < |run| && t < |run[n].tasks| && Behind(run, n, t) && a != Advance(t)
    requires Enabled(run[n], a) && run[n + 1] == Step(run[n], a)
    ensures t < |run[n + 1].tasks| && Behind(run, n + 1, t)
  {
    PassedLater(run, n, t);
    assert run[n + 1].tasks[t] == run[n].tasks[t];
  }

  lemma StepKeepsBehind(run: seq<State>, n: nat, t: nat)
    requires IsRun(run) && n + 1 < |run| && t < |run[n + 1].tasks| && (t < |run[n].tasks| ==> Behind(run, n, t))
    ensures Behind(run, n + 1, t)
  {
    assert Follows(run[n + 1 - 1], run[n + 1]);
    var a :| Enabled(run[n], a) && run[n + 1] == Step(run[n], a);
    if t >= |run[n].tasks| {
      assert run[n + 1].tasks[t].pc.Start?;
    } else if a == Advance(t) {
      RunKeepsInv(run, n);
      OwnStepAddsBehind(run, n, t);
    } else {
      OtherStepKeepsBehind(run, n, t, a);
    }
  }

  lemma {:induction false} RunKeepsBehind(run: seq<State>, n: nat, t: nat)
    requires IsRun(run) && n < |run| && t < |run[n].tasks|
    ensures Behind(run, n, t)
    decreases n
  {
    if n == 0 {
    } else {
      if t < |run[n - 1].tasks| {
        RunKeepsBehind(run, n - 1, t);
      }
      StepKeepsBehind(run, n - 1, t);
    }
  }

  /** A disconnect that has returned took the buffer and closed the scope; a reset lowered the flag and
      discarded the buffer; a connect did that and then reopened the scope. */
  lemma ReturnedDidItsSteps(run: seq<State>, n: nat, t: nat)
    requires IsRun(run) && n < |run| && t < |run[n].tasks| && run[n].tasks[t].pc.Done?
    ensures match run[n].tasks[t].role
            case Disconnect => Passed(run, n, t, Start) && Passed(run, n, t, Spawned)
            case Reset => Passed(run, n, t, Start) && Passed(run, n, t, Lowered)
            case Connect => Passed(run, n, t, Start) && Passed(run, n, t, Lowered) && Passed(run, n, t, Cleared)
            case _ => Passed(run, n, t, Start)
  {
    RunKeepsBehind(run, n, t);
  }

  // -- The flag and the scope --

  ghost predicate ClosesAt(run: seq<State>, i: nat) {
    exists t: nat :: Leaves(run, i, t, Spawned)
  }

  ghost predicate ReopensAt(run: seq<State>, i: nat) {
    exists t: nat :: Leaves(run, i, t, Cleared)
  }

  ghost predicate FlipsAt(run: seq<State>, i: nat) {
    exists t: nat :: Leaves(run, i, t, Start) && run[i].tasks[t].role.Complete?
  }

  ghost predicate LowersAt(run: seq<State>, i: nat) {
    exists t: nat :: Leaves(run, i, t, Start) && (run[i].tasks[t].role.Reset? || run[i].tasks[t].role.Connect?)
  }

  lemma StepSwitches(run: seq<State>, i: nat)
    requires IsRun(run) && i + 1 < |run|
    ensures run[i + 1].closed <==> ClosesAt(run, i) || (run[i].closed && !ReopensAt(run, i))
    ensures run[i + 1].completed <==> FlipsAt(run, i) || (run[i].completed && !LowersAt(run, i))
  {
    assert Follows(run[i + 1 - 1], run[i + 1]);
    var a :| Enabled(run[i], a) && run[i + 1] == Step(run[i], a);
    RunKeepsInv(run, i);
    if a.Advance? {
      assert PcFits(run[i].tasks[a.task]);
      assert Leaves(run, i, a.task, run[i].tasks[a.task].pc);
    }
  }

  /** The outbound scope is closed if and only if the last disconnect or connect to reach it was a
      disconnect. */
  lemma ClosedIffLastDisconnected(run: seq<State>, n: nat)
    requires IsRun(run) && n < |run|
    ensures run[n].closed <==> RaisedLast((j: nat) => ClosesAt(run, j), (j: nat) => ReopensAt(run, j), n)
  {
    forall i: nat | i < n
      ensures run[i + 1].closed <==> ClosesAt(run, i) || (run[i].closed && !ReopensAt(run, i))
    {
      StepSwitches(run, i);
    }
    UpIffLastRaised((j: nat) => j < |run| && run[j].closed, (j: nat) => ClosesAt(run, j), (j: nat) => ReopensAt(run, j), n);
  }

  /** The completion flag is up if and only if the last completion, reset or connect to move it was a
      completion. */
  lemma CompletedIffLastFlipped(run: seq<State>, n: nat)
    requires IsRun(run) && n < |run|
    ensures run[n].completed <==> RaisedLast((j: nat) => FlipsAt(run, j), (j: nat) => LowersAt(run, j), n)
  {
    forall i: nat | i < n
      ensures run[i + 1].completed <==> FlipsAt(run, i) || (run[i].completed && !LowersAt(run, i))
    {
      StepSwitches(run, i);
    }
    UpIffLastRaised((j: nat) => j < |run| && run[j].completed, (j: nat) => FlipsAt(run, j), (j: nat) => LowersAt(run, j), n);
  }
}
