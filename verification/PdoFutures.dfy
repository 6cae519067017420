/**
 What can still happen to a placeholder request, exactly: a message's request can still be sent if
 and only if none was and no cancelled caller holds its claim.
 */
module PdoFutures {
  import opened PdoClaim
  import Paths
  import SF = SingleFlight
  import TaskSums

  type FlightAction = SF.Action<Message, ()>

  ghost function Following(): (State, State) -> bool {
    (s: State, s': State) => Follows(s, s')
  }

  ghost predicate IsPath(path: seq<State>, s: State) {
    Paths.IsPath(path, s, Following())
  }

  lemma InvFollows(s: State, s': State)
    requires Inv(s) && Follows(s, s')
    ensures Inv(s')
  {
    var a :| Enabled(s, a) && s' == Step(s, a);
    StepKeepsInv(s, a);
  }

  /** A step in front of a path. */
  lemma Prepended(s: State, a: Action, rest: seq<State>) returns (path: seq<State>)
    requires Enabled(s, a) && IsPath(rest, Step(s, a))
    ensures IsPath(path, s) && path[|path| - 1] == rest[|rest| - 1]
  {
    var one := Paths.Extended([s], s, Step(s, a), Following());
    path := Paths.Joined(one, s, rest, Following());
  }

  /** What a caller's own step inside `get_with` changes. */
  lemma OwnStep(s: State, f: FlightAction)
    requires Enabled(s, Flight(f)) && SF.ByTask(f)
    ensures var s' := Step(s, Flight(f));
            && s'.flight.tasks == s.flight.tasks[f.t := SF.Move(s.flight, f)]
            && s'.sent == s.sent && (!f.Cancel? ==> s'.phases == s.phases)
            && (!f.Store? ==> s'.flight.cache == s.flight.cache)
  {
  }

  // -- From a claim to a sent request --

  /** The claim is stored and its caller is still inside `get_with`. */
  ghost predicate FreshClaim(s: State, t: nat, m: Message) {
    HoldsClaim(s, t, m) && t !in s.phases
  }

  function StepsToReturn(pc: SF.Pc): nat {
    match pc
    case Leaving => 3
    case Reclaiming => 2
    case Dropping => 1
    case _ => 0
  }

  lemma ReturnStep(s: State, t: nat, m: Message) returns (f: FlightAction)
    requires Inv(s) && FreshClaim(s, t, m) && !s.flight.tasks[t].pc.Done?
    ensures Enabled(s, Flight(f))
    ensures var s' := Step(s, Flight(f));
            && FreshClaim(s', t, m) && s'.sent == s.sent
            && StepsToReturn(s'.flight.tasks[t].pc) < StepsToReturn(s.flight.tasks[t].pc)
  {
    f := match s.flight.tasks[t].pc
      case Leaving => SF.Leave(t)
      case Reclaiming => SF.Reclaim(t)
      case Dropping => SF.DropClone(t);
    OwnStep(s, f);
    FlightClaims(s, f, t, m);
  }

  lemma {:induction false} FreshClaimSends(s: State, t: nat, m: Message) returns (path: seq<State>)
    requires Inv(s) && FreshClaim(s, t, m)
    ensures IsPath(path, s) && path[|path| - 1].sent[m] == s.sent[m] + 1
    decreases StepsToReturn(s.flight.tasks[t].pc)
  {
    if s.flight.tasks[t].pc.Done? {
      StepKeepsInv(s, Claim(t));
      ClaimStays(s, Claim(t), t, m);
      var rest := Sends(Step(s, Claim(t)), t, m);
      path := Prepended(s, Claim(t), rest);
    } else {
      var f := ReturnStep(s, t, m);
      StepKeepsInv(s, Flight(f));
      var rest := FreshClaimSends(Step(s, Flight(f)), t, m);
      path := Prepended(s, Flight(f), rest);
    }
  }

  /** The claimant has got past `get_with` and has not tried to send, or is sending. */
  predicate MaySend(phase: Phase) {
    phase.Claimed? || phase.Unsent? || phase.Sending?
  }

  function StepsToSend(phase: Phase): nat {
    match phase
    case Claimed => 3
    case Unsent => 2
    case _ => 1
  }

  /** The claimant finds nothing pending, because only its own request could be. */
  lemma NotPending(s: State, t: nat, m: Message)
    requires Inv(s) && HoldsClaim(s, t, m) && In(s, t, Claimed)
    ensures m !in s.pending
  {
    ClaimantState(s, t);
  }

  lemma ClaimStays(s: State, a: Action, t: nat, m: Message)
    requires Inv(s) && HoldsClaim(s, t, m) && Enabled(s, a) && !a.Flight? && !a.RemoveClaim?
    ensures HoldsClaim(Step(s, a), t, m)
  {
    PhaseKeepsHolders(s, a);
  }

  lemma SendStep(s: State, t: nat, m: Message) returns (a: Action)
    requires Inv(s) && HoldsClaim(s, t, m) && t in s.phases && (s.phases[t].Claimed? || s.phases[t].Unsent?)
    ensures Enabled(s, a) && !a.Flight? && !a.RemoveClaim?
    ensures var s' := Step(s, a);
            && HoldsClaim(s', t, m) && s'.sent == s.sent && t in s'.phases && MaySend(s'.phases[t])
            && StepsToSend(s'.phases[t]) < StepsToSend(s.phases[t])
  {
    a := if s.phases[t].Claimed? then CheckPending(t) else AddPending(t);
    if a.CheckPending? {
      NotPending(s, t, m);
    }
    ClaimStays(s, a, t, m);
  }

  lemma {:induction false} Sends(s: State, t: nat, m: Message) returns (path: seq<State>)
    requires Inv(s) && HoldsClaim(s, t, m) && t in s.phases && MaySend(s.phases[t])
    ensures IsPath(path, s) && path[|path| - 1].sent[m] == s.sent[m] + 1
    decreases StepsToSend(s.phases[t])
  {
    if s.phases[t].Sending? {
      var a := SendResult(t, true);
      path := Prepended(s, a, [Step(s, a)]);
    } else {
      var a := SendStep(s, t, m);
      StepKeepsInv(s, a);
      var rest := Sends(Step(s, a), t, m);
      path := Prepended(s, a, rest);
    }
  }

  // -- From no claim to a claim --

  /** No caller but `t` is inside the guarded section for the message. */
  ghost predicate GuardFree(s: State, t: nat, m: Message) {
    forall u :: u != t && SF.GuardedAt(s.flight, u) ==> s.flight.tasks[u].key != m
  }

  /** Nobody owns the lock a caller queues on while the guarded section is free. */
  lemma LockUnowned(s: State, t: nat, m: Message)
    requires GuardOk(s) && GuardFree(s, t, m) && SF.At(s.flight, t, SF.Queued) && s.flight.tasks[t].key == m
    ensures s.flight.tasks[t].lock !in s.flight.owner
  {
    assert SF.TaskLockOk(s.flight, s.flight.tasks[t]);
  }

  function StepsToClaim(pc: SF.Pc): nat {
    match pc
    case Peeking => 6
    case Missed => 5
    case Queued => 4
    case Inside => 3
    case Initializing => 2
    case Computed => 1
    case _ => 0
  }

  /** A caller on its way to the claim, with nothing in the way. */
  ghost predicate Claiming(s: State, t: nat, m: Message) {
    && t in s.flight.tasks && s.flight.tasks[t].key == m && StepsToClaim(s.flight.tasks[t].pc) > 0
    && m !in s.flight.cache && t !in s.phases && GuardFree(s, t, m)
  }

  lemma EnterMove(s: State, t: nat, m: Message) returns (f: FlightAction)
    requires Claiming(s, t, m) && !s.flight.tasks[t].pc.Computed?
    requires s.flight.tasks[t].pc.Queued? ==> s.flight.tasks[t].lock !in s.flight.owner
    ensures SF.ByTask(f) && f.t == t && !f.Store? && !f.Cancel? && Enabled(s, Flight(f))
    ensures var task := SF.Move(s.flight, f);
            task.key == m && 0 < StepsToClaim(task.pc) < StepsToClaim(s.flight.tasks[t].pc)
  {
    f := match s.flight.tasks[t].pc
      case Peeking => SF.Peek(t)
      case Missed => SF.CloneLock(t)
      case Queued => SF.EnterLock(t)
      case Inside => SF.Recheck(t)
      case Initializing => SF.Produce(t, ());
  }

  lemma GuardFreeStays(s: State, s': State, t: nat, m: Message)
    requires GuardFree(s, t, m) && t in s'.flight.tasks
    requires s'.flight.tasks == s.flight.tasks[t := s'.flight.tasks[t]]
    ensures GuardFree(s', t, m)
  {
  }

  lemma EnterStep(s: State, t: nat, m: Message) returns (f: FlightAction)
    requires GuardOk(s) && Claiming(s, t, m) && !s.flight.tasks[t].pc.Computed?
    ensures Enabled(s, Flight(f))
    ensures var s' := Step(s, Flight(f));
            && Claiming(s', t, m) && s'.sent == s.sent
            && StepsToClaim(s'.flight.tasks[t].pc) < StepsToClaim(s.flight.tasks[t].pc)
  {
    if s.flight.tasks[t].pc.Queued? {
      LockUnowned(s, t, m);
    }
    f := EnterMove(s, t, m);
    OwnStep(s, f);
    GuardFreeStays(s, Step(s, Flight(f)), t, m);
  }

  lemma StoreStep(s: State, t: nat, m: Message)
    requires Inv(s) && Claiming(s, t, m) && s.flight.tasks[t].pc.Computed?
    ensures Enabled(s, Flight(SF.Store(t, {})))
    ensures var s' := Step(s, Flight(SF.Store(t, {})));
            FreshClaim(s', t, m) && SF.At(s'.flight, t, SF.Leaving) && s'.sent == s.sent
  {
    OwnStep(s, SF.Store(t, {}));
    FlightClaims(s, SF.Store(t, {}), t, m);
  }

  lemma {:induction false} Claims(s: State, t: nat, m: Message) returns (path: seq<State>)
    requires Inv(s) && Claiming(s, t, m)
    ensures IsPath(path, s)
    ensures var s' := path[|path| - 1];
            Inv(s') && FreshClaim(s', t, m) && SF.At(s'.flight, t, SF.Leaving) && s'.sent == s.sent
    decreases StepsToClaim(s.flight.tasks[t].pc)
  {
    var rest: seq<State>;
    var f: FlightAction := SF.Store(t, {});
    if s.flight.tasks[t].pc.Computed? {
      StoreStep(s, t, m);
      StepKeepsInv(s, Flight(f));
      rest := [Step(s, Flight(f))];
    } else {
      f := EnterStep(s, t, m);
      StepKeepsInv(s, Flight(f));
      rest := Claims(Step(s, Flight(f)), t, m);
    }
    path := Prepended(s, Flight(f), rest);
  }

  lemma OnlyGuard(s: State, u: nat, m: Message)
    requires GuardOk(s) && SF.GuardedAt(s.flight, u) && s.flight.tasks[u].key == m
    ensures GuardFree(s, u, m)
  {
    forall v | v != u && SF.GuardedAt(s.flight, v)
      ensures s.flight.tasks[v].key != m
    {
      SF.MutualExclusion(s.flight, u, v);
    }
  }

  /** The holder of the guard can be cancelled out of the way. */
  lemma CancelFreesGuard(s: State, u: nat, t: nat, m: Message)
    requires GuardFree(s, u, m) && SF.GuardedAt(s.flight, u)
    ensures Enabled(s, Flight(SF.Cancel(u)))
    ensures var s' := Step(s, Flight(SF.Cancel(u)));
            s'.flight.cache == s.flight.cache && GuardFree(s', t, m) && s'.sent == s.sent
  {
    OwnStep(s, SF.Cancel(u));
    GuardFreeStays(s, Step(s, Flight(SF.Cancel(u))), u, m);
  }

  lemma NewCallClaims(s: State, t: nat, m: Message) returns (path: seq<State>)
    requires Inv(s) && m !in s.flight.cache && t !in s.flight.tasks && GuardFree(s, t, m)
    ensures IsPath(path, s)
    ensures var s' := path[|path| - 1];
            Inv(s') && FreshClaim(s', t, m) && SF.At(s'.flight, t, SF.Leaving) && s'.sent == s.sent
  {
    var call := Flight(SF.Call(t, m));
    OwnStep(s, call.a);
    StepKeepsInv(s, call);
    var rest := Claims(Step(s, call), t, m);
    path := Prepended(s, call, rest);
  }

  /** Without a claim, a new caller can always get one. */
  lemma NewClaim(s: State, m: Message) returns (path: seq<State>, t: nat)
    requires Inv(s) && m !in s.flight.cache
    ensures IsPath(path, s)
    ensures var s' := path[|path| - 1];
            Inv(s') && FreshClaim(s', t, m) && SF.At(s'.flight, t, SF.Leaving) && s'.sent == s.sent
  {
    t := TaskSums.FreshId(s.flight.tasks.Keys);
    if u :| SF.GuardedAt(s.flight, u) && s.flight.tasks[u].key == m {
      var cancel := Flight(SF.Cancel(u));
      OnlyGuard(s, u, m);
      CancelFreesGuard(s, u, t, m);
      OwnStep(s, cancel.a);
      StepKeepsInv(s, cancel);
      var rest := NewCallClaims(Step(s, cancel), t, m);
      path := Prepended(s, cancel, rest);
    } else {
      path := NewCallClaims(s, t, m);
    }
  }

  // -- From a failed send to no claim --

  lemma RemoveClaimFrees(s: State, t: nat, m: Message)
    requires Inv(s) && HoldsClaim(s, t, m) && In(s, t, Releasing)
    ensures m !in Step(s, RemoveClaim(t)).flight.cache && Step(s, RemoveClaim(t)).sent == s.sent
  {
  }

  lemma ReleasingSends(s: State, t: nat, m: Message) returns (path: seq<State>)
    requires Inv(s) && HoldsClaim(s, t, m) && In(s, t, Releasing)
    ensures IsPath(path, s) && path[|path| - 1].sent[m] == s.sent[m] + 1
  {
    RemoveClaimFrees(s, t, m);
    StepKeepsInv(s, RemoveClaim(t));
    var rest := UnclaimedSends(Step(s, RemoveClaim(t)), m);
    path := Prepended(s, RemoveClaim(t), rest);
  }

  lemma FailingSends(s: State, t: nat, m: Message) returns (path: seq<State>)
    requires Inv(s) && HoldsClaim(s, t, m) && In(s, t, Failing)
    ensures IsPath(path, s) && path[|path| - 1].sent[m] == s.sent[m] + 1
  {
    ClaimStays(s, RemovePending(t), t, m);
    StepKeepsInv(s, RemovePending(t));
    var rest := ReleasingSends(Step(s, RemovePending(t)), t, m);
    path := Prepended(s, RemovePending(t), rest);
  }

  // -- Exactly when a request can still be sent --

  ghost predicate CanSend(s: State, m: Message) {
    exists path: seq<State> :: IsPath(path, s) && path[|path| - 1].sent[m] > s.sent[m]
  }

  ghost predicate Abandoned(s: State, m: Message) {
    exists t :: AbandonedAt(s, t, m)
  }

  /** The claimant of an unsent, unabandoned message, by where it stands. */
  lemma ClaimantStands(s: State, m: Message) returns (t: nat)
    requires Inv(s) && s.sent[m] == 0 && !Abandoned(s, m) && m in s.flight.cache
    ensures HoldsClaim(s, t, m)
    ensures t in s.phases ==> MaySend(s.phases[t]) || s.phases[t].Failing? || s.phases[t].Releasing?
  {
    assert ClaimOk(s, m) && PendingOk(s, m);
    t :| HoldsClaim(s, t, m);
    assert TaskOk(s, t);
    assert !AbandonedAt(s, t, m) && !SentAt(s, t, m);
  }

  lemma UnclaimedSends(s: State, m: Message) returns (path: seq<State>)
    requires Inv(s) && m !in s.flight.cache
    ensures IsPath(path, s) && path[|path| - 1].sent[m] == s.sent[m] + 1
  {
    var t: nat;
    path, t := NewClaim(s, m);
    var rest := FreshClaimSends(path[|path| - 1], t, m);
    path := Paths.Joined(path, s, rest, Following());
  }

  lemma UnsentSends(s: State, m: Message) returns (path: seq<State>)
    requires Inv(s) && s.sent[m] == 0 && !Abandoned(s, m)
    ensures IsPath(path, s) && path[|path| - 1].sent[m] == s.sent[m] + 1
  {
    if m !in s.flight.cache {
      path := UnclaimedSends(s, m);
    } else {
      var t := ClaimantStands(s, m);
      if t !in s.phases {
        path := FreshClaimSends(s, t, m);
      } else if MaySend(s.phases[t]) {
        path := Sends(s, t, m);
      } else if s.phases[t].Failing? {
        path := FailingSends(s, t, m);
      } else {
        path := ReleasingSends(s, t, m);
      }
    }
  }

  /** An abandoned claim is never given back, and its message never sent. */
  lemma AbandonedStays(s: State, s': State, t: nat, m: Message)
    requires Inv(s) && AbandonedAt(s, t, m) && Follows(s, s')
    ensures AbandonedAt(s', t, m)
  {
    var a :| Enabled(s, a) && s' == Step(s, a);
    match a
    case Flight(f) => AbandonedStaysInFlight(s, f, t, m);
    case RemoveClaim(u) => AbandonedStaysOnRelease(s, u, t, m);
    case _ => ClaimStays(s, a, t, m);
  }

  lemma AbandonedStaysOnRelease(s: State, u: nat, t: nat, m: Message)
    requires Inv(s) && AbandonedAt(s, t, m) && Enabled(s, RemoveClaim(u))
    ensures AbandonedAt(Step(s, RemoveClaim(u)), t, m)
  {
    ClaimantIsUnique(s, u, t);
    RemoveClaimHolders(s, u, t, m);
  }

  lemma AbandonedStaysInFlight(s: State, f: FlightAction, t: nat, m: Message)
    requires Inv(s) && AbandonedAt(s, t, m) && Enabled(s, Flight(f))
    ensures AbandonedAt(Step(s, Flight(f)), t, m)
  {
    FlightClaims(s, f, t, m);
    if SF.ByTask(f) {
      FlightClaimsOwn(s, f, m);
    }
  }

  lemma AbandonedIsUnsent(s: State, t: nat, m: Message)
    requires Inv(s) && AbandonedAt(s, t, m)
    ensures s.sent[m] == 0
  {
    assert PendingOk(s, m);
    forall u
      ensures !SentAt(s, u, m)
    {
      OneHolder(s, t, u, m);
    }
  }

  lemma {:induction false} PathKeepsInv(path: seq<State>, s: State, i: nat)
    requires Inv(s) && IsPath(path, s) && i < |path|
    ensures Inv(path[i])
    decreases i
  {
    if i == 0 {
    } else {
      PathKeepsInv(path, s, i - 1);
      assert Follows(path[i - 1], path[i]);
      InvFollows(path[i - 1], path[i]);
    }
  }

  lemma {:induction false} PathKeepsAbandoned(path: seq<State>, s: State, i: nat, t: nat, m: Message)
    requires Inv(s) && IsPath(path, s) && i < |path| && AbandonedAt(s, t, m)
    ensures AbandonedAt(path[i], t, m)
    decreases i
  {
    if i == 0 {
    } else {
      PathKeepsAbandoned(path, s, i - 1, t, m);
      PathKeepsInv(path, s, i - 1);
      assert Follows(path[i - 1], path[i]);
      AbandonedStays(path[i - 1], path[i], t, m);
    }
  }

  lemma SentAtMostOnce(s: State, m: Message)
    requires Inv(s)
    ensures s.sent[m] <= 1
  {
    assert PendingOk(s, m);
  }

  /** Along a path nothing more is sent for a message that was sent or abandoned. */
  lemma NothingMoreSent(path: seq<State>, s: State, m: Message)
    requires Inv(s) && IsPath(path, s) && (s.sent[m] == 1 || Abandoned(s, m))
    ensures path[|path| - 1].sent[m] <= s.sent[m]
  {
    var last := |path| - 1;
    PathKeepsInv(path, s, last);
    SentAtMostOnce(path[last], m);
    if t :| AbandonedAt(s, t, m) {
      PathKeepsAbandoned(path, s, last, t, m);
      AbandonedIsUnsent(path[last], t, m);
    }
  }

  /** In every reachable state, some continuation sends a request for the message if and only if none
      was sent and no caller was cancelled holding its claim. */
  lemma SendableIffUnsentAndUnabandoned(run: seq<State>, i: nat, m: Message)
    requires IsRun(run) && i < |run|
    ensures CanSend(run[i], m) <==> run[i].sent[m] == 0 && !Abandoned(run[i], m)
  {
    var s := run[i];
    RunKeepsInv(run, i);
    AtMostOneRequest(run, i, m);
    if s.sent[m] == 0 && !Abandoned(s, m) {
      var path := UnsentSends(s, m);
    } else {
      forall path: seq<State> | IsPath(path, s)
        ensures path[|path| - 1].sent[m] <= s.sent[m]
      {
        NothingMoreSent(path, s, m);
      }
    }
  }

  /** The slot can be held without a request: a caller is cancelled on its way out of `get_with`, right
      after its claim was stored. Nothing was sent for the message, and nothing ever will be. */
  lemma CancelledCallerBlocksMessage(m: Message) returns (run: seq<State>)
    ensures IsRun(run)
    ensures var s := run[|run| - 1];
            m in s.flight.cache && s.sent[m] == 0 && Abandoned(s, m) && !CanSend(s, m)
  {
    InitialInv();
    var t: nat;
    run, t := NewClaim(Initial(), m);
    CancelOrphans(run[|run| - 1], t, m);
    run := Paths.Extended(run, Initial(), Step(run[|run| - 1], Flight(SF.Cancel(t))), Following());
    assert IsRun(run);
    SendableIffUnsentAndUnabandoned(run, |run| - 1, m);
  }

  lemma CancelOrphans(s: State, t: nat, m: Message)
    requires Inv(s) && FreshClaim(s, t, m) && SF.At(s.flight, t, SF.Leaving)
    ensures Enabled(s, Flight(SF.Cancel(t)))
    ensures var s' := Step(s, Flight(SF.Cancel(t))); Abandoned(s', m) && m in s'.flight.cache && s'.sent == s.sent
  {
    OwnStep(s, SF.Cancel(t));
    FlightClaims(s, SF.Cancel(t), t, m);
    assert AbandonedAt(Step(s, Flight(SF.Cancel(t))), t, m);
    assert ClaimOk(s, m);
  }
}
