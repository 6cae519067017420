/**
 Once-per-message placeholder requests. Each caller claims the message through the
 single-flight `get_with` on `pdo_requested`, checks and fills `pdo_pending_requests`, sends,
 and gives the claim back when the send fails.

 The claim runs on the full `get_with` protocol: `flight` is its state, with the claim cache
 as the cache. Callers may be cancelled at every await; the claim cache neither expires nor
 evicts.
 */
module PdoClaim {
  import SF = SingleFlight
  import opened Switches

  type Message = string

  /** After `get_with` returned to a caller. `Orphaned`: cancelled inside `get_with` with the claim
      already stored. `Abandoned`: cancelled later, before anything was sent; `AbandonedSent`:
      cancelled while sending, and the request went out all the same. */
  datatype Phase =
    | Skipped
    | Claimed
    | AlreadyPending
    | Unsent
    | Sending
    | Sent
    | Failing
    | Releasing
    | Failed
    | Orphaned
    | Abandoned
    | AbandonedSent

  datatype State = State(
    flight: SF.State<Message, ()>,
    pending: set<Message>,
    phases: map<nat, Phase>,
    sent: multiset<Message>)

  datatype Action =
    | Flight(a: SF.Action<Message, ()>)
    | Claim(t: nat)
    | CheckPending(t: nat)
    | AddPending(t: nat)
    | SendResult(t: nat, ok: bool)
    | RemovePending(t: nat)
    | RemoveClaim(t: nat)
    | Quit(t: nat, went: bool)
    | Respond(m: Message)

  ghost predicate In(s: State, t: nat, phase: Phase) {
    t in s.phases && s.phases[t] == phase && t in s.flight.tasks
  }

  /** No expiry or eviction, and nobody else writes the claim cache. */
  predicate Undisturbing(a: SF.Action<Message, ()>) {
    !a.RemoveEntry? && !a.Overwrite? && (a.Store? ==> a.evicted == {})
  }

  /** Waiting at an await, after the claim. */
  predicate Unfinished(phase: Phase) {
    phase.Claimed? || phase.Unsent? || phase.Sending? || phase.Failing? || phase.Releasing?
  }

  /** The call is cancelled when its claim is already in the cache. */
  ghost predicate Orphans(s: State, f: SF.Action<Message, ()>) {
    f.Cancel? && f.t in s.flight.tasks && s.flight.tasks[f.t].ran && SF.Settled(s.flight.tasks[f.t].pc)
  }

  ghost predicate Enabled(s: State, a: Action) {
    match a
    case Flight(f) => Undisturbing(f) && SF.Enabled(s.flight, f)
    case Claim(t) => SF.At(s.flight, t, SF.Done) && t !in s.phases
    case CheckPending(t) => In(s, t, Claimed)
    case AddPending(t) => In(s, t, Unsent)
    case SendResult(t, _) => In(s, t, Sending)
    case RemovePending(t) => In(s, t, Failing)
    case RemoveClaim(t) => In(s, t, Releasing)
    case Quit(t, went) =>
      t in s.phases && t in s.flight.tasks && Unfinished(s.phases[t]) && (went ==> s.phases[t].Sending?)
    case Respond(_) => true
  }

  ghost function MessageOf(s: State, t: nat): Message
    requires t in s.flight.tasks
  {
    s.flight.tasks[t].key
  }

  ghost function Step(s: State, a: Action): State
    requires Enabled(s, a)
  {
    match a
    case Flight(f) =>
      s.(flight := SF.Step(s.flight, f), phases := if Orphans(s, f) then s.phases[f.t := Orphaned] else s.phases)
    case Claim(t) => s.(phases := s.phases[t := if s.flight.tasks[t].ran then Claimed else Skipped])
    case CheckPending(t) =>
      s.(phases := s.phases[t := if MessageOf(s, t) in s.pending then AlreadyPending else Unsent])
    case AddPending(t) => s.(phases := s.phases[t := Sending], pending := s.pending + {MessageOf(s, t)})
    case SendResult(t, ok) =>
      if ok then s.(phases := s.phases[t := Sent], sent := s.sent + multiset{MessageOf(s, t)})
      else s.(phases := s.phases[t := Failing])
    case RemovePending(t) => s.(phases := s.phases[t := Releasing], pending := s.pending - {MessageOf(s, t)})
    case RemoveClaim(t) =>
      s.(phases := s.phases[t := Failed], flight := SF.Step(s.flight, SF.RemoveEntry(MessageOf(s, t))))
    case Quit(t, went) =>
      if went then s.(phases := s.phases[t := AbandonedSent], sent := s.sent + multiset{MessageOf(s, t)})
      else s.(phases := s.phases[t := Abandoned])
    case Respond(m) => s.(pending := s.pending - {m})
  }

  // -- The invariant --

  /** The caller's initializer ran, its claim is in the cache and it has not given it back. */
  ghost predicate HoldsClaim(s: State, t: nat, m: Message) {
    && t in s.flight.tasks && s.flight.tasks[t].key == m && s.flight.tasks[t].ran
    && (SF.Settled(s.flight.tasks[t].pc) || (s.flight.tasks[t].pc.Cancelled? && t in s.phases))
    && (t in s.phases ==> s.phases[t] != Failed)
  }

  ghost predicate GuardOk(s: State) {
    SF.LocksOk(s.flight) && SF.RefsOk(s.flight) && SF.OwnerOk(s.flight) && SF.ValuesOk(s.flight)
    && !s.flight.disabled
  }

  ghost predicate TaskOk(s: State, t: nat)
    requires t in s.flight.tasks
  {
    var task := s.flight.tasks[t];
    && (task.ran ==> SF.Running(task.pc) || SF.Settled(task.pc) || task.pc.Cancelled?)
    && (SF.Running(task.pc) ==> task.ran && task.key !in s.flight.cache)
    && (t in s.phases ==>
          if s.phases[t].Orphaned? then task.pc.Cancelled? && task.ran
          else task.pc.Done? && (task.ran <==> !s.phases[t].Skipped?))
  }

  ghost predicate ClaimOk(s: State, m: Message) {
    && (m in s.flight.cache <==> exists t :: HoldsClaim(s, t, m))
    && (forall t, u :: HoldsClaim(s, t, m) && HoldsClaim(s, u, m) ==> t == u)
  }

  /** The phases in which a caller may have its message pending. */
  predicate MayPend(phase: Phase) {
    phase.Sending? || phase.Sent? || phase.Failing? || phase.Abandoned? || phase.AbandonedSent?
  }

  predicate IsSent(phase: Phase) {
    phase.Sent? || phase.AbandonedSent?
  }

  ghost predicate PendingOk(s: State, m: Message) {
    && (m in s.pending ==> exists t :: PendsAt(s, t, m))
    && (forall t :: t in s.flight.tasks && MessageOf(s, t) == m && t in s.phases ==> !s.phases[t].AlreadyPending?)
    && s.sent[m] == SF.Bit(exists t :: SentAt(s, t, m))
  }

  ghost predicate PendsAt(s: State, t: nat, m: Message) {
    HoldsClaim(s, t, m) && t in s.phases && MayPend(s.phases[t])
  }

  ghost predicate SentAt(s: State, t: nat, m: Message) {
    HoldsClaim(s, t, m) && t in s.phases && IsSent(s.phases[t])
  }

  ghost predicate Inv(s: State) {
    && GuardOk(s)
    && (forall t :: t in s.phases ==> t in s.flight.tasks)
    && (forall t :: t in s.flight.tasks ==> TaskOk(s, t))
    && (forall m :: ClaimOk(s, m) && PendingOk(s, m))
  }

  // -- Steps of the claim cache --

  lemma FlightKeepsGuard(s: SF.State<Message, ()>, f: SF.Action<Message, ()>)
    requires SF.LocksOk(s) && SF.RefsOk(s) && SF.OwnerOk(s) && SF.ValuesOk(s) && SF.Enabled(s, f)
    ensures var s' := SF.Step(s, f);
            SF.LocksOk(s') && SF.RefsOk(s') && SF.OwnerOk(s') && SF.ValuesOk(s') && s'.disabled == s.disabled
  {
    SF.StepKeepsLocks(s, f);
    SF.StepKeepsRefs(s, f);
    SF.StepKeepsOwner(s, f);
    SF.StepKeepsValues(s, f);
  }

  /** What an undisturbing step does to the claim cache: only a store adds to it. */
  lemma FlightCache(s: State, f: SF.Action<Message, ()>)
    requires GuardOk(s) && Undisturbing(f) && SF.Enabled(s.flight, f)
    ensures SF.Step(s.flight, f).cache.Keys ==
            if f.Store? then s.flight.cache.Keys + {s.flight.tasks[f.t].key} else s.flight.cache.Keys
  {
  }

  /** A caller's own move through `get_with`. */
  lemma FlightMove(s: State, f: SF.Action<Message, ()>)
    requires SF.ByTask(f) && Undisturbing(f) && SF.Enabled(s.flight, f)
    requires f.t in s.flight.tasks ==> TaskOk(s, f.t)
    requires f.t in s.phases ==> f.t in s.flight.tasks
    ensures var task' := SF.Move(s.flight, f);
            && (task'.ran ==> SF.Running(task'.pc) || SF.Settled(task'.pc) || task'.pc.Cancelled?)
            && (SF.Running(task'.pc) ==> task'.ran && task'.key !in s.flight.cache && !f.Store?)
            && (task'.pc.Cancelled? <==> f.Cancel?)
            && (f.t in s.flight.tasks ==> task'.key == s.flight.tasks[f.t].key && !s.flight.tasks[f.t].pc.Done?)
            && (f.t in s.flight.tasks && !f.Recheck? ==> task'.ran == s.flight.tasks[f.t].ran)
            && (f.t in s.flight.tasks ==> !s.flight.tasks[f.t].pc.Cancelled? && f.t !in s.phases)
            && (task'.ran && SF.Settled(task'.pc) <==>
                  f.Store? || (!f.Cancel? && f.t in s.flight.tasks && s.flight.tasks[f.t].ran && SF.Settled(s.flight.tasks[f.t].pc)))
  {
  }

  /** Every other caller stays where it is. */
  lemma FlightFrame(s: State, f: SF.Action<Message, ()>, u: nat)
    requires Enabled(s, Flight(f)) && !(SF.ByTask(f) && u == f.t)
    ensures var s' := Step(s, Flight(f));
            && (u in s'.flight.tasks <==> u in s.flight.tasks) && (u in s'.phases <==> u in s.phases)
            && (u in s.flight.tasks ==> s'.flight.tasks[u] == s.flight.tasks[u])
            && (u in s.phases ==> s'.phases[u] == s.phases[u])
  {
  }

  lemma FlightKeepsOtherTask(s: State, f: SF.Action<Message, ()>, u: nat)
    requires GuardOk(s) && Enabled(s, Flight(f)) && !(SF.ByTask(f) && u == f.t)
    requires u in s.flight.tasks && TaskOk(s, u)
    ensures u in Step(s, Flight(f)).flight.tasks && TaskOk(Step(s, Flight(f)), u)
  {
    FlightFrame(s, f, u);
    FlightCache(s, f);
    if f.Store? && SF.Running(s.flight.tasks[u].pc) {
      SF.MutualExclusion(s.flight, f.t, u);
    }
  }

  lemma FlightKeepsOwnTask(s: State, f: SF.Action<Message, ()>)
    requires GuardOk(s) && Enabled(s, Flight(f)) && SF.ByTask(f)
    requires f.t in s.flight.tasks ==> TaskOk(s, f.t)
    requires f.t in s.phases ==> f.t in s.flight.tasks
    ensures TaskOk(Step(s, Flight(f)), f.t)
  {
    FlightCache(s, f);
    FlightMove(s, f);
  }

  lemma FlightKeepsTasks(s: State, f: SF.Action<Message, ()>, u: nat)
    requires Inv(s) && Enabled(s, Flight(f)) && u in Step(s, Flight(f)).flight.tasks
    ensures TaskOk(Step(s, Flight(f)), u)
  {
    if SF.ByTask(f) && u == f.t {
      FlightKeepsOwnTask(s, f);
    } else {
      FlightFrame(s, f, u);
      FlightKeepsOtherTask(s, f, u);
    }
  }

  /** A caller inside `get_with` gets a claim by storing it, keeps it, and never has another phase
      than `Orphaned`. */
  lemma FlightClaimsOwn(s: State, f: SF.Action<Message, ()>, m: Message)
    requires Enabled(s, Flight(f)) && SF.ByTask(f)
    requires f.t in s.flight.tasks ==> TaskOk(s, f.t)
    requires f.t in s.phases ==> f.t in s.flight.tasks
    ensures f.t !in s.phases && (f.t in Step(s, Flight(f)).phases ==> Step(s, Flight(f)).phases[f.t].Orphaned?)
    ensures HoldsClaim(Step(s, Flight(f)), f.t, m) <==>
              HoldsClaim(s, f.t, m) || (f.Store? && s.flight.tasks[f.t].key == m)
    ensures f.Store? ==> s.flight.tasks[f.t].key !in s.flight.cache
  {
    FlightMove(s, f);
  }

  /** Only a store creates a claim, and only where there was none. */
  lemma FlightClaims(s: State, f: SF.Action<Message, ()>, u: nat, m: Message)
    requires Inv(s) && Enabled(s, Flight(f))
    ensures HoldsClaim(Step(s, Flight(f)), u, m) <==>
              HoldsClaim(s, u, m) || (f.Store? && u == f.t && s.flight.tasks[f.t].key == m)
    ensures f.Store? ==> f.t !in s.phases && s.flight.tasks[f.t].key !in s.flight.cache
    ensures PendsAt(Step(s, Flight(f)), u, m) == PendsAt(s, u, m)
    ensures SentAt(Step(s, Flight(f)), u, m) == SentAt(s, u, m)
  {
    if SF.ByTask(f) {
      FlightClaimsOwn(s, f, m);
    }
    if !(SF.ByTask(f) && u == f.t) {
      FlightFrame(s, f, u);
    }
  }

  lemma FlightKeepsClaim(s: State, f: SF.Action<Message, ()>, m: Message)
    requires Inv(s) && Enabled(s, Flight(f))
    ensures ClaimOk(Step(s, Flight(f)), m)
  {
    var s' := Step(s, Flight(f));
    FlightCache(s, f);
    forall u
      ensures HoldsClaim(s', u, m) <==> HoldsClaim(s, u, m) || (f.Store? && u == f.t && s.flight.tasks[f.t].key == m)
      ensures f.Store? ==> s.flight.tasks[f.t].key !in s.flight.cache
    {
      FlightClaims(s, f, u, m);
    }
    assert ClaimOk(s, m);
    if f.Store? && s.flight.tasks[f.t].key == m {
      assert HoldsClaim(s', f.t, m);
    }
  }

  lemma FlightKeepsPending(s: State, f: SF.Action<Message, ()>, m: Message)
    requires Inv(s) && Enabled(s, Flight(f))
    ensures PendingOk(Step(s, Flight(f)), m)
  {
    var s' := Step(s, Flight(f));
    assert PendingOk(s, m);
    forall u
      ensures PendsAt(s', u, m) == PendsAt(s, u, m) && SentAt(s', u, m) == SentAt(s, u, m)
      ensures u in s'.phases && s'.phases[u].AlreadyPending? ==> u in s.phases && s.phases[u].AlreadyPending?
    {
      FlightClaims(s, f, u, m);
    }
    forall t | t in s'.flight.tasks && MessageOf(s', t) == m && t in s'.phases
      ensures !s'.phases[t].AlreadyPending?
    {
      if s'.phases[t].AlreadyPending? {
        FlightKeepsMessage(s, f, t);
      }
    }
    SamePendingKeeps(s, s', m);
  }

  lemma FlightKeepsMessage(s: State, f: SF.Action<Message, ()>, t: nat)
    requires Inv(s) && Enabled(s, Flight(f)) && t in s.phases
    ensures t in s.flight.tasks && t in Step(s, Flight(f)).flight.tasks
    ensures MessageOf(Step(s, Flight(f)), t) == MessageOf(s, t)
  {
    if SF.ByTask(f) && t == f.t {
      FlightMove(s, f);
    } else {
      FlightFrame(s, f, t);
    }
  }

  // -- Steps after the claim --

  ghost predicate PhasesOk(s: State) {
    && (forall t :: t in s.phases ==> t in s.flight.tasks)
    && (forall t :: t in s.flight.tasks ==> TaskOk(s, t))
  }

  lemma PhaseKeepsTasks(s: State, a: Action)
    requires PhasesOk(s) && Enabled(s, a) && !a.Flight? && !a.RemoveClaim?
    ensures PhasesOk(Step(s, a))
  {
    var s' := Step(s, a);
    forall t | t in s.flight.tasks
      ensures TaskOk(s', t)
    {
      assert TaskOk(s, t);
    }
  }

  ghost predicate SameClaims(s: State, s': State) {
    s'.flight == s.flight && forall u, m :: HoldsClaim(s', u, m) == HoldsClaim(s, u, m)
  }

  /** A step that leaves the claim cache alone leaves the claims alone. */
  lemma PhaseKeepsHolders(s: State, a: Action)
    requires Enabled(s, a) && !a.Flight? && !a.RemoveClaim?
    ensures SameClaims(s, Step(s, a))
  {
  }

  lemma SameClaimsKeepClaim(s: State, s': State, m: Message)
    requires ClaimOk(s, m) && SameClaims(s, s')
    ensures ClaimOk(s', m)
  {
  }

  /** A caller past `Claim` that was not turned away and has not given up is the one claimant. */
  lemma ClaimantIsUnique(s: State, t: nat, u: nat)
    requires Inv(s) && t in s.phases && !s.phases[t].Skipped? && !s.phases[t].Failed?
    ensures t in s.flight.tasks && HoldsClaim(s, t, MessageOf(s, t))
    ensures HoldsClaim(s, u, MessageOf(s, t)) ==> u == t
  {
    assert TaskOk(s, t);
    var m := MessageOf(s, t);
    assert HoldsClaim(s, t, m);
    OneHolder(s, t, u, m);
  }

  lemma OneHolder(s: State, t: nat, u: nat, m: Message)
    requires forall m :: ClaimOk(s, m) && PendingOk(s, m)
    requires HoldsClaim(s, t, m)
    ensures HoldsClaim(s, u, m) ==> u == t
  {
    assert ClaimOk(s, m);
  }

  ghost predicate SamePending(s: State, s': State, m: Message) {
    && (m in s'.pending ==> m in s.pending)
    && s'.sent[m] == s.sent[m]
    && (forall u :: PendsAt(s', u, m) == PendsAt(s, u, m) && SentAt(s', u, m) == SentAt(s, u, m))
    && (forall t :: t in s'.flight.tasks && MessageOf(s', t) == m && t in s'.phases && s'.phases[t].AlreadyPending? ==>
          t in s.flight.tasks && MessageOf(s, t) == m && t in s.phases && s.phases[t].AlreadyPending?)
  }

  lemma SamePendingKeeps(s: State, s': State, m: Message)
    requires PendingOk(s, m) && SamePending(s, s', m)
    ensures PendingOk(s', m)
  {
  }

  /** Another message's callers do not notice the step, and a claim by itself changes nothing. */
  lemma PhaseKeepsOthersPending(s: State, a: Action, m: Message)
    requires Enabled(s, a) && !a.Flight? && !a.RemoveClaim? && !a.Respond?
    requires m != MessageOf(s, a.t) || a.Claim?
    ensures SamePending(s, Step(s, a), m)
  {
    PhaseKeepsHolders(s, a);
  }

  lemma ClaimantView(s: State, s': State, t: nat, u: nat)
    requires Inv(s) && t in s.phases && !s.phases[t].Skipped? && !s.phases[t].Failed?
    requires SameClaims(s, s') && t in s'.phases
    ensures t in s.flight.tasks
    ensures PendsAt(s, u, MessageOf(s, t)) <==> u == t && MayPend(s.phases[t])
    ensures SentAt(s, u, MessageOf(s, t)) <==> u == t && IsSent(s.phases[t])
    ensures PendsAt(s', u, MessageOf(s, t)) <==> u == t && MayPend(s'.phases[t])
    ensures SentAt(s', u, MessageOf(s, t)) <==> u == t && IsSent(s'.phases[t])
  {
    ClaimantIsUnique(s, t, u);
  }

  /** For its own message the claimant's phase decides everything. */
  lemma ClaimantDecides(s: State, s': State, t: nat)
    requires Inv(s) && t in s.phases && !s.phases[t].Skipped? && !s.phases[t].Failed?
    requires SameClaims(s, s') && t in s'.phases && PendingOk(s, MessageOf(s, t))
    requires forall u :: u != t && u in s'.phases ==> u in s.phases && s'.phases[u] == s.phases[u]
    requires !s'.phases[t].AlreadyPending?
    requires MessageOf(s, t) in s'.pending ==> MayPend(s'.phases[t])
    requires s'.sent[MessageOf(s, t)] == SF.Bit(IsSent(s'.phases[t]))
    ensures PendingOk(s', MessageOf(s, t))
  {
    var m := MessageOf(s, t);
    ClaimantView(s, s', t, t);
    assert PendsAt(s', t, m) <==> MayPend(s'.phases[t]);
    forall u
      ensures SentAt(s', u, m) <==> u == t && IsSent(s'.phases[t])
    {
      ClaimantView(s, s', t, u);
    }
    assert SentAt(s', t, m) <==> IsSent(s'.phases[t]);
  }

  lemma ClaimantState(s: State, t: nat)
    requires Inv(s) && t in s.phases && !s.phases[t].Skipped? && !s.phases[t].Failed?
    ensures t in s.flight.tasks
    ensures MessageOf(s, t) in s.pending ==> MayPend(s.phases[t])
    ensures s.sent[MessageOf(s, t)] == SF.Bit(IsSent(s.phases[t]))
  {
    var m := MessageOf(s, t);
    assert PendingOk(s, m);
    forall u
      ensures PendsAt(s, u, m) <==> u == t && MayPend(s.phases[t])
      ensures SentAt(s, u, m) <==> u == t && IsSent(s.phases[t])
    {
      ClaimantView(s, s, t, u);
    }
    assert SentAt(s, t, m) <==> IsSent(s.phases[t]);
  }

  lemma ClaimantKeepsPending(s: State, a: Action)
    requires Inv(s) && Enabled(s, a)
    requires a.CheckPending? || a.AddPending? || a.SendResult? || a.RemovePending? || a.Quit?
    ensures PendingOk(Step(s, a), MessageOf(s, a.t))
  {
    ClaimantState(s, a.t);
    PhaseKeepsHolders(s, a);
    ClaimantDecides(s, Step(s, a), a.t);
  }

  /** Giving the claim back ends it and touches no other message. */
  lemma RemoveClaimHolders(s: State, t: nat, u: nat, m: Message)
    requires Inv(s) && Enabled(s, RemoveClaim(t))
    ensures HoldsClaim(Step(s, RemoveClaim(t)), u, m) <==> HoldsClaim(s, u, m) && m != MessageOf(s, t)
    ensures m == MessageOf(s, t) ==> !PendsAt(s, u, m) && !SentAt(s, u, m)
  {
    ClaimantIsUnique(s, t, u);
  }

  lemma RemoveClaimKeepsClaim(s: State, t: nat, m: Message)
    requires Inv(s) && Enabled(s, RemoveClaim(t))
    ensures ClaimOk(Step(s, RemoveClaim(t)), m)
  {
    var s' := Step(s, RemoveClaim(t));
    assert ClaimOk(s, m);
    forall u
      ensures HoldsClaim(s', u, m) <==> HoldsClaim(s, u, m) && m != MessageOf(s, t)
    {
      RemoveClaimHolders(s, t, u, m);
    }
    assert m in s'.flight.cache <==> m in s.flight.cache && m != MessageOf(s, t);
  }

  lemma RemoveClaimKeepsPending(s: State, t: nat, m: Message)
    requires Inv(s) && Enabled(s, RemoveClaim(t))
    ensures PendingOk(Step(s, RemoveClaim(t)), m)
  {
    var s' := Step(s, RemoveClaim(t));
    assert PendingOk(s, m);
    forall u
      ensures PendsAt(s', u, m) == PendsAt(s, u, m) && SentAt(s', u, m) == SentAt(s, u, m)
    {
      RemoveClaimHolders(s, t, u, m);
    }
    SamePendingKeeps(s, s', m);
  }

  lemma RemoveClaimKeepsTasks(s: State, t: nat, u: nat)
    requires Inv(s) && Enabled(s, RemoveClaim(t)) && u in s.flight.tasks
    ensures TaskOk(Step(s, RemoveClaim(t)), u)
  {
  }

  lemma StepKeepsInv(s: State, a: Action)
    requires Inv(s) && Enabled(s, a)
    ensures Inv(Step(s, a))
  {
    match a
    case Flight(f) => FlightKeepsInv(s, f);
    case RemoveClaim(t) => RemoveClaimKeepsInv(s, t);
    case _ => PhaseKeepsInv(s, a);
  }

  lemma FlightKeepsInv(s: State, f: SF.Action<Message, ()>)
    requires Inv(s) && Enabled(s, Flight(f))
    ensures Inv(Step(s, Flight(f)))
  {
    FlightKeepsGuard(s.flight, f);
    forall u | u in Step(s, Flight(f)).flight.tasks
      ensures TaskOk(Step(s, Flight(f)), u)
    {
      FlightKeepsTasks(s, f, u);
    }
    forall m
      ensures ClaimOk(Step(s, Flight(f)), m) && PendingOk(Step(s, Flight(f)), m)
    {
      FlightKeepsClaim(s, f, m);
      FlightKeepsPending(s, f, m);
    }
  }

  lemma RemoveClaimKeepsInv(s: State, t: nat)
    requires Inv(s) && Enabled(s, RemoveClaim(t))
    ensures Inv(Step(s, RemoveClaim(t)))
  {
    FlightKeepsGuard(s.flight, SF.RemoveEntry(MessageOf(s, t)));
    forall u | u in s.flight.tasks
      ensures TaskOk(Step(s, RemoveClaim(t)), u)
    {
      RemoveClaimKeepsTasks(s, t, u);
    }
    forall m
      ensures ClaimOk(Step(s, RemoveClaim(t)), m) && PendingOk(Step(s, RemoveClaim(t)), m)
    {
      RemoveClaimKeepsClaim(s, t, m);
      RemoveClaimKeepsPending(s, t, m);
    }
  }

  lemma PhaseKeepsPending(s: State, a: Action, m: Message)
    requires Inv(s) && Enabled(s, a) && !a.Flight? && !a.RemoveClaim?
    ensures PendingOk(Step(s, a), m)
  {
    assert PendingOk(s, m);
    if a.Respond? {
      PhaseKeepsHolders(s, a);
      SamePendingKeeps(s, Step(s, a), m);
    } else if a.Claim? || m != MessageOf(s, a.t) {
      PhaseKeepsOthersPending(s, a, m);
      SamePendingKeeps(s, Step(s, a), m);
    } else {
      ClaimantKeepsPending(s, a);
    }
  }

  lemma PhaseKeepsInv(s: State, a: Action)
    requires Inv(s) && Enabled(s, a) && !a.Flight? && !a.RemoveClaim?
    ensures Inv(Step(s, a))
  {
    PhaseKeepsTasks(s, a);
    PhaseKeepsHolders(s, a);
    forall m
      ensures ClaimOk(Step(s, a), m) && PendingOk(Step(s, a), m)
    {
      SameClaimsKeepClaim(s, Step(s, a), m);
      PhaseKeepsPending(s, a, m);
    }
  }

  // -- Whole runs --

  ghost function Initial(): State {
    State(SF.Initial(false), {}, map[], multiset{})
  }

  ghost predicate Follows(s: State, s': State) {
    exists a :: Enabled(s, a) && s' == Step(s, a)
  }

  ghost predicate IsRun(run: seq<State>) {
    && |run| > 0 && run[0] == Initial()
    && forall i :: 0 < i < |run| ==> Follows(run[i - 1], run[i])
  }

  lemma InitialInv()
    ensures Inv(Initial())
  {
  }

  lemma {:induction false} RunKeepsInv(run: seq<State>, i: nat)
    requires IsRun(run) && i < |run|
    ensures Inv(run[i])
    decreases i
  {
    if i == 0 {
      InitialInv();
    } else {
      RunKeepsInv(run, i - 1);
      assert Follows(run[i - 1], run[i]);
      var a :| Enabled(run[i - 1], a) && run[i] == Step(run[i - 1], a);
      StepKeepsInv(run[i - 1], a);
    }
  }

  /** However many callers race for a message, at most one request for it is ever sent
      successfully, a pending message is always claimed, and the early return for a message
      found pending by its own claimant never happens. */
  lemma AtMostOneRequest(run: seq<State>, i: nat, m: Message)
    requires IsRun(run) && i < |run|
    ensures run[i].sent[m] <= 1
    ensures m in run[i].pending ==> m in run[i].flight.cache
    ensures forall t :: t in run[i].phases ==> !run[i].phases[t].AlreadyPending?
  {
    RunKeepsInv(run, i);
    var s := run[i];
    assert ClaimOk(s, m) && PendingOk(s, m);
    if m in s.pending {
      var t :| PendsAt(s, t, m);
      assert HoldsClaim(s, t, m);
    }
    forall t | t in s.phases
      ensures !s.phases[t].AlreadyPending?
    {
      assert PendingOk(s, MessageOf(s, t));
    }
  }

  predicate Finished(phase: Phase) {
    !Unfinished(phase)
  }

  /** The caller was cancelled while it held the claim and before its request was sent. */
  ghost predicate AbandonedAt(s: State, t: nat, m: Message) {
    HoldsClaim(s, t, m) && t in s.phases && (s.phases[t].Orphaned? || s.phases[t].Abandoned?)
  }

  /** When every caller has returned or been cancelled, a message's slot is held exactly when its
      request was sent or its claimant was cancelled before that: a failed send never blocks a
      later request, a cancelled caller does. */
  lemma SlotHeldIffSentOrAbandoned(run: seq<State>, i: nat, m: Message)
    requires IsRun(run) && i < |run|
    requires forall t :: t in run[i].flight.tasks ==>
               if t in run[i].phases then Finished(run[i].phases[t]) else run[i].flight.tasks[t].pc.Cancelled?
    ensures m in run[i].flight.cache <==> run[i].sent[m] == 1 || exists t :: AbandonedAt(run[i], t, m)
  {
    RunKeepsInv(run, i);
    AtMostOneRequest(run, i, m);
    var s := run[i];
    assert ClaimOk(s, m) && PendingOk(s, m);
    forall t
      ensures HoldsClaim(s, t, m) <==> SentAt(s, t, m) || AbandonedAt(s, t, m)
    {
      if HoldsClaim(s, t, m) {
        assert TaskOk(s, t);
        assert t in s.phases ==> !s.phases[t].AlreadyPending?;
      }
    }
  }

  /** In particular, without cancellations, exactly when its request was sent. */
  lemma SlotHeldIffSent(run: seq<State>, i: nat, m: Message)
    requires IsRun(run) && i < |run|
    requires forall t :: t in run[i].flight.tasks ==> t in run[i].phases && Finished(run[i].phases[t])
    requires forall t :: t in run[i].phases ==> !run[i].phases[t].Orphaned? && !run[i].phases[t].Abandoned?
    ensures m in run[i].flight.cache <==> run[i].sent[m] == 1
  {
    SlotHeldIffSentOrAbandoned(run, i, m);
  }

  // -- A request that is out is pending --

  /** At step `k` a caller goes on to send its request for the message. */
  ghost predicate RequestedAt(run: seq<State>, k: nat, m: Message) {
    k + 1 < |run| && exists t: nat :: In(run[k], t, Unsent) && In(run[k + 1], t, Sending) && MessageOf(run[k], t) == m
  }

  /** The message is answered, or a failed send takes it back. */
  ghost predicate TakesBack(s: State, a: Action, m: Message) {
    a == Respond(m) || (a.RemovePending? && a.t in s.flight.tasks && MessageOf(s, a.t) == m)
  }

  ghost predicate AnsweredAt(run: seq<State>, k: nat, m: Message) {
    k + 1 < |run| && exists a :: Enabled(run[k], a) && run[k + 1] == Step(run[k], a) && TakesBack(run[k], a, m)
  }

  lemma StepPends(s: State, a: Action, m: Message)
    requires Enabled(s, a)
    ensures m in Step(s, a).pending <==>
            (a.AddPending? && MessageOf(s, a.t) == m) || (m in s.pending && !TakesBack(s, a, m))
    ensures forall t: nat :: In(s, t, Unsent) && In(Step(s, a), t, Sending) ==> a == AddPending(t)
    ensures a.AddPending? ==> In(s, a.t, Unsent) && In(Step(s, a), a.t, Sending)
  {
  }

  lemma FollowPends(run: seq<State>, k: nat, m: Message)
    requires IsRun(run) && k + 1 < |run|
    ensures m in run[k + 1].pending <==> RequestedAt(run, k, m) || (m in run[k].pending && !AnsweredAt(run, k, m))
  {
    assert Follows(run[k + 1 - 1], run[k + 1]);
    if AnsweredAt(run, k, m) {
      var a :| Enabled(run[k], a) && run[k + 1] == Step(run[k], a) && TakesBack(run[k], a, m);
      StepPends(run[k], a, m);
    } else {
      var a :| Enabled(run[k], a) && run[k + 1] == Step(run[k], a);
      StepPends(run[k], a, m);
    }
  }

  ghost predicate PendsRightly(run: seq<State>, k: nat, m: Message) {
    && k + 1 < |run|
    && (m in run[k + 1].pending <==> RequestedAt(run, k, m) || (m in run[k].pending && !AnsweredAt(run, k, m)))
  }

  lemma AllPendRightly(run: seq<State>, n: nat, m: Message)
    requires IsRun(run) && n < |run|
    ensures m !in run[0].pending && forall k: nat :: k < n ==> PendsRightly(run, k, m)
  {
    forall k: nat | k < n
      ensures PendsRightly(run, k, m)
    {
      FollowPends(run, k, m);
    }
  }

  lemma PendingTracks(run: seq<State>, n: nat, m: Message)
    requires n < |run| && m !in run[0].pending && forall k: nat :: k < n ==> PendsRightly(run, k, m)
    ensures m in run[n].pending <==>
            RaisedLast((k: nat) => RequestedAt(run, k, m), (k: nat) => AnsweredAt(run, k, m), n)
  {
    var flag := (k: nat) => k < |run| && m in run[k].pending;
    var up, down := (k: nat) => RequestedAt(run, k, m), (k: nat) => AnsweredAt(run, k, m);
    forall k: nat | k < n
      ensures flag(k + 1) <==> up(k) || (flag(k) && !down(k))
    {
      assert PendsRightly(run, k, m);
    }
    UpIffLastRaised(flag, up, down, n);
  }

  /** A message is pending if and only if a caller went on to send its request and since then it was
      neither answered nor taken back by a failed send. */
  lemma PendingIffRequestedLast(run: seq<State>, n: nat, m: Message)
    requires IsRun(run) && n < |run|
    ensures m in run[n].pending <==>
            RaisedLast((k: nat) => RequestedAt(run, k, m), (k: nat) => AnsweredAt(run, k, m), n)
  {
    AllPendRightly(run, n, m);
    PendingTracks(run, n, m);
  }
}
