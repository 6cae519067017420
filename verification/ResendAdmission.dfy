/**
 The admission bound of the resend limiter. An acquire first fetches its chat's bucket and later
 takes from it; in between, other acquires run and the bucket cache may evict the chat, so that a
 straddling acquire takes from a bucket the cache has forgotten while a new one fills beside it.

 Runs are lists of operations over all chats in one order of time. A fetch carries the burst and
 rate it loaded, so live retuning is any sequence of loaded values.
 */
module ResendAdmission {
  import opened ResendRateLimiter

  /** A bucket there is or was, by the chat it was made for. */
  datatype Cell = Cell(chat: Chat, bucket: Bucket)

  /** A bucket in an acquire's hands, with the burst and rate it loaded. */
  datatype Held = Held(id: nat, burst: nat, perMin: nat)

  /** `index` is the bucket cache; `held` has the acquires between fetch and take. */
  datatype State = State(cells: seq<Cell>, index: map<Chat, nat>, held: map<nat, Held>, throttled: nat)

  datatype Op =
    | Fetch(task: nat, chat: Chat, now: real, burst: nat, perMin: nat)
    | TakeHeld(task: nat, now: real)
    | Evict(chat: Chat)

  /** What every reachable state keeps: ids in range, each chat on its own cells, clocks not ahead. */
  ghost predicate Sane(s: State, now: real) {
    && (forall c :: c in s.index ==> s.index[c] < |s.cells| && s.cells[s.index[c]].chat == c)
    && (forall t :: t in s.held ==> s.held[t].id < |s.cells| && s.held[t].burst > 0)
    && (forall i :: 0 <= i < |s.cells| ==> s.cells[i].bucket.tokens >= 0.0 && s.cells[i].bucket.lastRefill <= now)
  }

  /** A fetch is by a new task, a take by one that has fetched. */
  predicate Enabled(s: State, op: Op) {
    match op
    case Fetch(task, _, _, _, _) => task !in s.held
    case TakeHeld(task, _) => task in s.held && s.held[task].id < |s.cells|
    case Evict(_) => true
  }

  predicate Creates(s: State, op: Op) {
    op.Fetch? && op.burst > 0 && !(op.chat in s.index && s.index[op.chat] < |s.cells|)
  }

  function FetchedId(s: State, chat: Chat): nat {
    if chat in s.index && s.index[chat] < |s.cells| then s.index[chat] else |s.cells|
  }

  predicate TakeAllows(s: State, task: nat, now: real)
    requires task in s.held && s.held[task].id < |s.cells|
  {
    var h := s.held[task];
    Allows(s.cells[h.id].bucket, now, h.burst as real, Rate(h.perMin))
  }

  function Taken(s: State, task: nat, now: real): Cell
    requires task in s.held && s.held[task].id < |s.cells|
  {
    var h := s.held[task];
    Cell(s.cells[h.id].chat, Take(s.cells[h.id].bucket, now, h.burst as real, Rate(h.perMin)))
  }

  function Step(s: State, op: Op): State
    requires Enabled(s, op)
  {
    match op
    case Fetch(task, chat, now, burst, perMin) =>
      if burst == 0 then s
      else
        State(
          if Creates(s, op) then s.cells + [Cell(chat, Bucket(burst as real, now))] else s.cells,
          s.index[chat := FetchedId(s, chat)],
          s.held[task := Held(FetchedId(s, chat), burst, perMin)],
          s.throttled)
    case TakeHeld(task, now) =>
      State(
        s.cells[s.held[task].id := Taken(s, task, now)],
        s.index,
        s.held - {task},
        if TakeAllows(s, task, now) then s.throttled else s.throttled + 1)
    case Evict(chat) => State(s.cells, s.index - {chat}, s.held, s.throttled)
  }

  // -- Runs --

  /** The clock after an operation. */
  function After(op: Op, from: real): real {
    if op.Evict? then from else op.now
  }

  /** Every operation is enabled in turn and the clock never runs backwards. */
  predicate IsRun(s: State, ops: seq<Op>, from: real)
    decreases |ops|
  {
    if ops == [] then true
    else Enabled(s, ops[0]) && from <= After(ops[0], from) && IsRun(Step(s, ops[0]), ops[1..], After(ops[0], from))
  }

  function Run(s: State, ops: seq<Op>, from: real): State
    requires IsRun(s, ops, from)
    decreases |ops|
  {
    if ops == [] then s else Run(Step(s, ops[0]), ops[1..], After(ops[0], from))
  }

  function End(ops: seq<Op>, from: real): real
    decreases |ops|
  {
    if ops == [] then from else End(ops[1..], After(ops[0], from))
  }

  lemma StepKeepsSane(s: State, op: Op, from: real)
    requires Sane(s, from) && Enabled(s, op) && from <= After(op, from)
    ensures Sane(Step(s, op), After(op, from))
  {
    if op.TakeHeld? {
      var h := s.held[op.task];
      RefillIsSane(s.cells[h.id].bucket, op.now, h.burst as real, Rate(h.perMin));
    }
  }

  /** Every reachable state is sane, whatever rates were loaded on the way. */
  lemma {:induction false} RunKeepsSane(s: State, ops: seq<Op>, from: real)
    requires Sane(s, from) && IsRun(s, ops, from)
    ensures Sane(Run(s, ops, from), End(ops, from))
    decreases |ops|
  {
    if ops == [] {
    } else {
      StepKeepsSane(s, ops[0], from);
      RunKeepsSane(Step(s, ops[0]), ops[1..], After(ops[0], from));
    }
  }

  // -- What a chat is allowed --

  predicate TakesFor(s: State, op: Op, chat: Chat) {
    op.TakeHeld? && Enabled(s, op) && s.cells[s.held[op.task].id].chat == chat
  }

  predicate AllowsFor(s: State, op: Op, chat: Chat) {
    TakesFor(s, op, chat) && TakeAllows(s, op.task, op.now)
  }

  /** The take is from a bucket the cache has forgotten since it was fetched. */
  predicate Straddles(s: State, op: Op, chat: Chat) {
    TakesFor(s, op, chat) && !(chat in s.index && s.index[chat] == s.held[op.task].id)
  }

  /** Resends of one chat a run allows while the limiter is on. */
  function Allowed(s: State, ops: seq<Op>, chat: Chat, from: real): nat
    requires IsRun(s, ops, from)
    decreases |ops|
  {
    if ops == [] then 0
    else One(AllowsFor(s, ops[0], chat)) + Allowed(Step(s, ops[0]), ops[1..], chat, After(ops[0], from))
  }

  function Straddlers(s: State, ops: seq<Op>, chat: Chat, from: real): nat
    requires IsRun(s, ops, from)
    decreases |ops|
  {
    if ops == [] then 0
    else One(Straddles(s, ops[0], chat)) + Straddlers(Step(s, ops[0]), ops[1..], chat, After(ops[0], from))
  }

  function Evictions(ops: seq<Op>, chat: Chat): nat {
    if ops == [] then 0 else One(ops[0] == Evict(chat)) + Evictions(ops[1..], chat)
  }

  /** Every acquire of the chat, in hand or to come, loaded this burst and rate. */
  ghost predicate FixedHeld(s: State, chat: Chat, burst: nat, perMin: nat) {
    forall t :: t in s.held && s.held[t].id < |s.cells| && s.cells[s.held[t].id].chat == chat ==>
      s.held[t].burst == burst && s.held[t].perMin == perMin
  }

  predicate FixedFetches(ops: seq<Op>, chat: Chat, burst: nat, perMin: nat) {
    forall i :: 0 <= i < |ops| && ops[i].Fetch? && ops[i].chat == chat ==>
      ops[i].burst == burst && ops[i].perMin == perMin
  }

  lemma StepKeepsFixed(s: State, op: Op, chat: Chat, from: real, burst: nat, perMin: nat)
    requires Sane(s, from) && Enabled(s, op) && FixedHeld(s, chat, burst, perMin)
    requires op.Fetch? && op.chat == chat ==> op.burst == burst && op.perMin == perMin
    ensures FixedHeld(Step(s, op), chat, burst, perMin)
  {
  }

  // -- The bound --

  /** What the chat could spend by `now` from the bucket the cache knows, or from a new one. */
  function Credit(s: State, chat: Chat, now: real, burst: nat, rate: real): real {
    if chat in s.index && s.index[chat] < |s.cells| then
      var b := s.cells[s.index[chat]].bucket;
      b.tokens + Worth(b.lastRefill, now, rate)
    else burst as real
  }

  lemma CreditGrows(s: State, chat: Chat, from: real, now: real, burst: nat, rate: real)
    requires from <= now && rate >= 0.0 && Sane(s, from)
    ensures 0.0 <= Credit(s, chat, from, burst, rate)
    ensures Credit(s, chat, now, burst, rate) <= Credit(s, chat, from, burst, rate) + Worth(from, now, rate)
  {
    WorthAdds(from, from, now, rate);
    if chat in s.index {
      var last := s.cells[s.index[chat]].bucket.lastRefill;
      WorthAdds(last, last, from, rate);
      WorthAdds(last, from, now, rate);
    }
  }

  /** What a take from the known bucket allows comes out of the chat's credit, which is then at most
      the burst. */
  lemma TakeSpendsCredit(s: State, op: Op, chat: Chat, from: real)
    requires Sane(s, from) && TakesFor(s, op, chat) && !Straddles(s, op, chat) && from <= op.now
    ensures var h := s.held[op.task];
            var spent := One(AllowsFor(s, op, chat)) as real + Credit(Step(s, op), chat, op.now, h.burst, Rate(h.perMin));
            spent <= Credit(s, chat, op.now, h.burst, Rate(h.perMin)) && spent <= h.burst as real
  {
    var h := s.held[op.task];
    RefillIsSane(s.cells[h.id].bucket, op.now, h.burst as real, Rate(h.perMin));
    WorthAdds(op.now, op.now, op.now, Rate(h.perMin));
  }

  /** A fetch leaves the credit as it is, a take from a forgotten bucket too. */
  lemma OtherKeepsCredit(s: State, op: Op, chat: Chat, from: real, burst: nat, rate: real)
    requires Sane(s, from) && Enabled(s, op) && op != Evict(chat)
    requires !(TakesFor(s, op, chat) && !Straddles(s, op, chat))
    requires op.Fetch? && op.chat == chat ==> op.burst == burst
    ensures Credit(Step(s, op), chat, After(op, from), burst, rate) == Credit(s, chat, After(op, from), burst, rate)
  {
    if Creates(s, op) && op.chat == chat {
      WorthAdds(op.now, op.now, op.now, rate);
    }
  }

  /** What the rate earns over a run, and what forgetting the chat's bucket forgives. */
  function Accrued(ops: seq<Op>, from: real, rate: real): real
    decreases |ops|
  {
    if ops == [] then 0.0 else Worth(from, After(ops[0], from), rate) + Accrued(ops[1..], After(ops[0], from), rate)
  }

  function Forgiven(ops: seq<Op>, chat: Chat, burst: nat): nat {
    if ops == [] then 0 else (if ops[0] == Evict(chat) then burst else 0) + Forgiven(ops[1..], chat, burst)
  }

  lemma {:induction false} AccruedIsRateTimesTime(ops: seq<Op>, from: real, rate: real)
    ensures Accrued(ops, from, rate) == Worth(from, End(ops, from), rate)
    decreases |ops|
  {
    if ops == [] {
    } else {
      AccruedIsRateTimesTime(ops[1..], After(ops[0], from), rate);
      WorthAdds(from, After(ops[0], from), End(ops, from), rate);
    }
  }

  lemma {:induction false} ForgivenIsBurstPerEviction(ops: seq<Op>, chat: Chat, burst: nat)
    ensures Forgiven(ops, chat, burst) == Evictions(ops, chat) * burst
  {
    if ops == [] {
    } else {
      ForgivenIsBurstPerEviction(ops[1..], chat, burst);
    }
  }

  /** One step of the bound: allowed plus credit afterwards is at most the credit before, what the
      time earned, a full bucket if the chat was forgotten, and one if the take straddled that. */
  lemma StepSpendsCredit(s: State, op: Op, chat: Chat, from: real, burst: nat, perMin: nat)
    requires Sane(s, from) && Enabled(s, op) && from <= After(op, from) && FixedHeld(s, chat, burst, perMin)
    requires op.Fetch? && op.chat == chat ==> op.burst == burst && op.perMin == perMin
    ensures One(AllowsFor(s, op, chat)) as real +
              Credit(Step(s, op), chat, After(op, from), burst, Rate(perMin)) <=
            Credit(s, chat, from, burst, Rate(perMin)) + Worth(from, After(op, from), Rate(perMin)) +
              (if op == Evict(chat) then burst as real else 0.0) + One(Straddles(s, op, chat)) as real
  {
    var rate, to := Rate(perMin), After(op, from);
    CreditGrows(s, chat, from, to, burst, rate);
    if op == Evict(chat) {
      assert Credit(Step(s, op), chat, to, burst, rate) == burst as real;
    } else if TakesFor(s, op, chat) && !Straddles(s, op, chat) {
      TakeSpendsCredit(s, op, chat, from);
    } else {
      OtherKeepsCredit(s, op, chat, from, burst, rate);
    }
  }

  lemma {:induction false} CreditBound(s: State, ops: seq<Op>, chat: Chat, from: real, burst: nat, perMin: nat)
    requires Sane(s, from) && IsRun(s, ops, from)
    requires FixedHeld(s, chat, burst, perMin) && FixedFetches(ops, chat, burst, perMin)
    ensures Allowed(s, ops, chat, from) as real <=
            Credit(s, chat, from, burst, Rate(perMin)) + Accrued(ops, from, Rate(perMin)) +
              Forgiven(ops, chat, burst) as real + Straddlers(s, ops, chat, from) as real
    decreases |ops|
  {
    if ops == [] {
      CreditGrows(s, chat, from, from, burst, Rate(perMin));
    } else {
      StepSpendsCredit(s, ops[0], chat, from, burst, perMin);
      StepKeepsSane(s, ops[0], from);
      StepKeepsFixed(s, ops[0], chat, from, burst, perMin);
      CreditBound(Step(s, ops[0]), ops[1..], chat, After(ops[0], from), burst, perMin);
    }
  }

  /** The admission bound, over every run of every chat's resends: from any take of a chat's known
      bucket to any later point, at most a full burst plus the rate times the elapsed time is
      allowed, plus one burst for each time the cache forgot the chat in between, plus one for
      each acquire that straddled such an eviction. */
  lemma AdmissionBound(s: State, ops: seq<Op>, chat: Chat, from: real, burst: nat, perMin: nat)
    requires Sane(s, from) && IsRun(s, ops, from)
    requires FixedHeld(s, chat, burst, perMin) && FixedFetches(ops, chat, burst, perMin)
    requires ops != [] && TakesFor(s, ops[0], chat) && !Straddles(s, ops[0], chat)
    ensures Allowed(s, ops, chat, from) as real <=
            burst as real + Worth(ops[0].now, End(ops, from), Rate(perMin)) +
              (Evictions(ops, chat) * burst) as real + Straddlers(s, ops, chat, from) as real
  {
    var op, rest := ops[0], ops[1..];
    TakeSpendsCredit(s, op, chat, from);
    StepKeepsSane(s, op, from);
    StepKeepsFixed(s, op, chat, from, burst, perMin);
    CreditBound(Step(s, op), rest, chat, op.now, burst, perMin);
    AccruedIsRateTimesTime(rest, op.now, Rate(perMin));
    ForgivenIsBurstPerEviction(rest, chat, burst);
  }

  // -- Without evictions --

  /** Every bucket of the chat in an acquire's hands is the one the cache knows. */
  ghost predicate AllKnown(s: State, chat: Chat) {
    forall t :: t in s.held && s.held[t].id < |s.cells| && s.cells[s.held[t].id].chat == chat ==>
      chat in s.index && s.index[chat] == s.held[t].id
  }

  lemma StepKeepsKnown(s: State, op: Op, chat: Chat, from: real)
    requires Sane(s, from) && Enabled(s, op) && AllKnown(s, chat) && op != Evict(chat)
    ensures AllKnown(Step(s, op), chat) && !Straddles(s, op, chat)
  {
  }

  /** Only an eviction makes an acquire straddle. */
  lemma {:induction false} NoEvictionNoStraddler(s: State, ops: seq<Op>, chat: Chat, from: real)
    requires Sane(s, from) && IsRun(s, ops, from) && AllKnown(s, chat) && Evictions(ops, chat) == 0
    ensures Straddlers(s, ops, chat, from) == 0
    decreases |ops|
  {
    if ops == [] {
    } else {
      StepKeepsSane(s, ops[0], from);
      StepKeepsKnown(s, ops[0], chat, from);
      NoEvictionNoStraddler(Step(s, ops[0]), ops[1..], chat, After(ops[0], from));
    }
  }

  /** The token-bucket bound proper: while the cache remembers the chat, at most a burst plus the rate
      times the elapsed time is allowed from any take on. */
  lemma AdmissionBoundWhileRemembered(s: State, ops: seq<Op>, chat: Chat, from: real, burst: nat, perMin: nat)
    requires Sane(s, from) && IsRun(s, ops, from) && AllKnown(s, chat) && Evictions(ops, chat) == 0
    requires FixedHeld(s, chat, burst, perMin) && FixedFetches(ops, chat, burst, perMin)
    requires ops != [] && TakesFor(s, ops[0], chat)
    ensures Allowed(s, ops, chat, from) as real <= burst as real + Worth(ops[0].now, End(ops, from), Rate(perMin))
  {
    NoEvictionNoStraddler(s, ops, chat, from);
    AdmissionBound(s, ops, chat, from, burst, perMin);
  }

  // -- Conservation of tokens under any retuning --

  predicate TakesFrom(s: State, op: Op, id: nat) {
    op.TakeHeld? && Enabled(s, op) && s.held[op.task].id == id
  }

  /** Tokens over the burst, which a refill throws away. */
  function Spills(b: Bucket, now: real, burst: real, rate: real): real {
    b.tokens + Earns(b, now, rate) - Refilled(b, now, burst, rate)
  }

  function EarnedBy(s: State, op: Op, id: nat): real {
    if TakesFrom(s, op, id) then Earns(s.cells[id].bucket, op.now, Rate(s.held[op.task].perMin)) else 0.0
  }

  function SpilledBy(s: State, op: Op, id: nat): real {
    if TakesFrom(s, op, id) then
      var h := s.held[op.task];
      Spills(s.cells[id].bucket, op.now, h.burst as real, Rate(h.perMin))
    else 0.0
  }

  predicate AllowsFrom(s: State, op: Op, id: nat) {
    TakesFrom(s, op, id) && TakeAllows(s, op.task, op.now)
  }

  /** Allowed, earned and spilled by one bucket over a run. */
  datatype Account = Account(allowed: nat, earned: real, spilled: real)

  function AccountOf(s: State, ops: seq<Op>, id: nat, from: real): Account
    requires IsRun(s, ops, from)
    decreases |ops|
  {
    if ops == [] then Account(0, 0.0, 0.0)
    else
      var rest := AccountOf(Step(s, ops[0]), ops[1..], id, After(ops[0], from));
      Account(
        One(AllowsFrom(s, ops[0], id)) + rest.allowed,
        EarnedBy(s, ops[0], id) + rest.earned,
        SpilledBy(s, ops[0], id) + rest.spilled)
  }

  lemma StepConservesTokens(s: State, op: Op, id: nat)
    requires Enabled(s, op) && id < |s.cells|
    ensures id < |Step(s, op).cells|
    ensures One(AllowsFrom(s, op, id)) as real + Step(s, op).cells[id].bucket.tokens + SpilledBy(s, op, id) ==
            s.cells[id].bucket.tokens + EarnedBy(s, op, id)
    ensures SpilledBy(s, op, id) >= 0.0
    ensures SpilledBy(s, op, id) > 0.0 ==>
              Step(s, op).cells[id].bucket.tokens + One(AllowsFrom(s, op, id)) as real == s.held[op.task].burst as real
  {
  }

  /** For every bucket, whatever rates were loaded and whether or not the cache still knows it: every
      allowed resend is one token, and tokens come only from the initial stock and from refills. */
  lemma {:induction false} TokensConserved(s: State, ops: seq<Op>, id: nat, from: real)
    requires IsRun(s, ops, from) && id < |s.cells|
    ensures id < |Run(s, ops, from).cells|
    ensures var account := AccountOf(s, ops, id, from);
            && account.allowed as real + Run(s, ops, from).cells[id].bucket.tokens + account.spilled ==
                 s.cells[id].bucket.tokens + account.earned
            && account.spilled >= 0.0
    decreases |ops|
  {
    if ops == [] {
    } else {
      StepConservesTokens(s, ops[0], id);
      TokensConserved(Step(s, ops[0]), ops[1..], id, After(ops[0], from));
    }
  }

  // -- Accounting --

  function Requests(ops: seq<Op>): nat {
    if ops == [] then 0 else One(ops[0].Fetch? && ops[0].burst > 0) + Requests(ops[1..])
  }

  function AllAllowed(s: State, ops: seq<Op>, from: real): nat
    requires IsRun(s, ops, from)
    decreases |ops|
  {
    if ops == [] then 0
    else
      One(ops[0].TakeHeld? && TakeAllows(s, ops[0].task, ops[0].now)) +
      AllAllowed(Step(s, ops[0]), ops[1..], After(ops[0], from))
  }

  lemma Grown(held: map<nat, Held>, task: nat, h: Held)
    requires task !in held
    ensures |held[task := h]| == |held| + 1
  {
    assert held[task := h].Keys == held.Keys + {task};
  }

  lemma StepAccounts(s: State, op: Op)
    requires Enabled(s, op)
    ensures One(op.Fetch? && op.burst > 0) + |s.held| + s.throttled ==
            One(op.TakeHeld? && TakeAllows(s, op.task, op.now)) + |Step(s, op).held| + Step(s, op).throttled
  {
    if op.Fetch? && op.burst > 0 {
      Grown(s.held, op.task, Step(s, op).held[op.task]);
    } else if op.TakeHeld? {
      Grown(Step(s, op).held, op.task, s.held[op.task]);
      assert s.held == (s.held - {op.task})[op.task := s.held[op.task]];
    }
  }

  /** With the limiter on, every request is allowed, counted as throttled, or still between fetch and
      take. */
  lemma {:induction false} RequestsAccounted(s: State, ops: seq<Op>, from: real)
    requires IsRun(s, ops, from)
    ensures Requests(ops) + |s.held| + s.throttled ==
            AllAllowed(s, ops, from) + |Run(s, ops, from).held| + Run(s, ops, from).throttled
    decreases |ops|
  {
    if ops == [] {
    } else {
      StepAccounts(s, ops[0]);
      RequestsAccounted(Step(s, ops[0]), ops[1..], After(ops[0], from));
    }
  }

  // -- Uninterrupted acquires --

  /** What the cache shows of a state. */
  ghost function Visible(s: State): Snapshot {
    Snapshot(map c | c in s.index && s.index[c] < |s.cells| :: s.cells[s.index[c]].bucket, s.throttled)
  }

  /** Neither half of an acquire touches another chat's bucket. */
  lemma OthersUntouched(s: State, op: Op, chat: Chat, c: Chat, from: real)
    requires Sane(s, from) && Enabled(s, op) && c != chat
    requires (op.Fetch? && op.chat == chat) || TakesFor(s, op, chat)
    ensures c in Step(s, op).index <==> c in s.index
    ensures c in s.index ==> Step(s, op).index[c] == s.index[c] && Step(s, op).cells[s.index[c]] == s.cells[s.index[c]]
  {
  }

  /** A fetch with its take right after it is the limiter's acquire as a method. */
  lemma UninterruptedAcquire(s: State, task: nat, chat: Chat, now: real, burst: nat, perMin: nat, from: real)
    requires Sane(s, from) && from <= now && task !in s.held && burst > 0
    ensures var s1 := Step(s, Fetch(task, chat, now, burst, perMin));
            && Enabled(s1, TakeHeld(task, now))
            && Visible(Step(s1, TakeHeld(task, now))) == Acquire(Visible(s), chat, now, burst, perMin)
            && TakeAllows(s1, task, now) == Permits(Visible(s), chat, now, burst, perMin)
  {
    var fetch, take := Fetch(task, chat, now, burst, perMin), TakeHeld(task, now);
    var s1 := Step(s, fetch);
    StepKeepsSane(s, fetch, from);
    var id, b := FetchedId(s, chat), BucketFor(Visible(s), chat, now, burst);
    assert s1.index[chat] == id && s1.held[task] == Held(id, burst, perMin) && s1.cells[id] == Cell(chat, b);
    var s2 := Step(s1, take);
    forall c | c != chat
      ensures c in s2.index <==> c in s.index
      ensures c in s.index ==> s2.index[c] == s.index[c] && s2.cells[s2.index[c]] == s.cells[s.index[c]]
    {
      OthersUntouched(s, fetch, chat, c, from);
      OthersUntouched(s1, take, chat, c, now);
    }
    Updated(Visible(s).buckets, Visible(s2).buckets, chat);
  }

  // -- The bound is met --

  /** What a run counts for a chat: allowed, evictions, straddlers, and where its clock ends. */
  datatype Counts = Counts(allowed: nat, evictions: nat, straddlers: nat, end: real)

  function CountsOf(s: State, ops: seq<Op>, chat: Chat, from: real): Counts
    requires IsRun(s, ops, from)
  {
    Counts(Allowed(s, ops, chat, from), Evictions(ops, chat), Straddlers(s, ops, chat, from), End(ops, from))
  }

  lemma Prepend(s: State, op: Op, rest: seq<Op>, chat: Chat, from: real) returns (ops: seq<Op>)
    requires Enabled(s, op) && from <= After(op, from) && IsRun(Step(s, op), rest, After(op, from))
    ensures ops == [op] + rest && IsRun(s, ops, from)
    ensures var c := CountsOf(Step(s, op), rest, chat, After(op, from));
            CountsOf(s, ops, chat, from) ==
            Counts(One(AllowsFor(s, op, chat)) + c.allowed, One(op == Evict(chat)) + c.evictions,
                   One(Straddles(s, op, chat)) + c.straddlers, c.end)
  {
    ops := [op] + rest;
    assert ops[1..] == rest;
  }

  /** A bucket of the chat with some whole tokens. */
  function CellWith(chat: Chat, tokens: nat, now: real): Cell {
    Cell(chat, Bucket(tokens as real, now))
  }

  function WithCell(s: State, id: nat, cell: Cell): State
    requires id < |s.cells|
  {
    s.(cells := s.cells[id := cell])
  }

  lemma WithCellTwice(s: State, id: nat, first: Cell, second: Cell)
    requires id < |s.cells|
    ensures WithCell(WithCell(s, id, first), id, second) == WithCell(s, id, second)
  {
    assert s.cells[id := first][id := second] == s.cells[id := second];
  }

  /** An allowed acquire at the bucket's own time: one token less, and otherwise the same state. */
  lemma SpendOne(s: State, chat: Chat, id: nat, left: nat, burst: nat, now: real, task: nat)
    requires chat in s.index && s.index[chat] == id < |s.cells| && s.cells[id] == CellWith(chat, left, now)
    requires 0 < left <= burst && task !in s.held
    ensures var fetch, take := Fetch(task, chat, now, burst, 60), TakeHeld(task, now);
            && Enabled(Step(s, fetch), take)
            && Step(Step(s, fetch), take) == WithCell(s, id, CellWith(chat, left - 1, now))
            && AllowsFor(Step(s, fetch), take, chat) && !Straddles(Step(s, fetch), take, chat)
  {
    var fetch, take := Fetch(task, chat, now, burst, 60), TakeHeld(task, now);
    var s1 := Step(s, fetch);
    assert s1.index == s.index && s1.cells == s.cells && s1.held[task] == Held(id, burst, 60);
    assert Earns(s.cells[id].bucket, now, Rate(60)) == 0.0;
    var s2 := Step(s1, take);
    assert s2.held == s.held;
  }

  /** Acquires at one instant spend a bucket's tokens, in front of any run from there. */
  lemma {:induction false} SpendAll(
    s: State, chat: Chat, id: nat, left: nat, burst: nat, now: real, task: nat, rest: seq<Op>) returns (ops: seq<Op>)
    requires chat in s.index && s.index[chat] == id < |s.cells| && s.cells[id] == CellWith(chat, left, now)
    requires left <= burst && task !in s.held && FixedFetches(rest, chat, burst, 60)
    requires IsRun(WithCell(s, id, CellWith(chat, 0, now)), rest, now)
    ensures IsRun(s, ops, now) && FixedFetches(ops, chat, burst, 60)
    ensures var c := CountsOf(WithCell(s, id, CellWith(chat, 0, now)), rest, chat, now);
            CountsOf(s, ops, chat, now) == c.(allowed := left + c.allowed)
    decreases left
  {
    if left == 0 {
      assert s.cells[id := s.cells[id]] == s.cells;
      ops := rest;
    } else {
      var fetch, take := Fetch(task, chat, now, burst, 60), TakeHeld(task, now);
      SpendOne(s, chat, id, left, burst, now, task);
      WithCellTwice(s, id, CellWith(chat, left - 1, now), CellWith(chat, 0, now));
      ops := SpendAll(Step(Step(s, fetch), take), chat, id, left - 1, burst, now, task, rest);
      ops := Prepend(Step(s, fetch), take, ops, chat, now);
      ops := Prepend(s, fetch, ops, chat, now);
    }
  }

  /** After an eviction and a burst from the new bucket. */
  function EmptiedOnce(s: State, chat: Chat, now: real): State {
    State(s.cells + [CellWith(chat, 0, now)], s.index[chat := |s.cells|], s.held, s.throttled)
  }

  function Emptied(s: State, chat: Chat, evictions: nat, now: real): State
    decreases evictions
  {
    if evictions == 0 then s else Emptied(EmptiedOnce(s, chat, now), chat, evictions - 1, now)
  }

  /** After an eviction the first acquire makes a full bucket and spends one token of it. */
  lemma SpendFromNew(s: State, chat: Chat, burst: nat, now: real, task: nat)
    requires chat !in s.index && 0 < burst && task !in s.held
    ensures var fetch, take := Fetch(task, chat, now, burst, 60), TakeHeld(task, now);
            && Enabled(Step(s, fetch), take)
            && Step(Step(s, fetch), take) ==
                 State(s.cells + [CellWith(chat, burst - 1, now)], s.index[chat := |s.cells|], s.held, s.throttled)
            && AllowsFor(Step(s, fetch), take, chat) && !Straddles(Step(s, fetch), take, chat)
  {
    var fetch, take := Fetch(task, chat, now, burst, 60), TakeHeld(task, now);
    var s1 := Step(s, fetch);
    assert s1.cells == s.cells + [CellWith(chat, burst, now)] && s1.held[task] == Held(|s.cells|, burst, 60);
    assert Earns(s1.cells[|s.cells|].bucket, now, Rate(60)) == 0.0;
    var s2 := Step(s1, take);
    assert s2.held == s.held;
    assert s2.cells == s.cells + [CellWith(chat, burst - 1, now)];
  }

  lemma EvictOnce(s: State, chat: Chat, burst: nat, now: real, task: nat, rest: seq<Op>) returns (ops: seq<Op>)
    requires 0 < burst && task !in s.held && FixedFetches(rest, chat, burst, 60)
    requires IsRun(EmptiedOnce(s, chat, now), rest, now)
    ensures IsRun(s, ops, now) && FixedFetches(ops, chat, burst, 60)
    ensures var c := CountsOf(EmptiedOnce(s, chat, now), rest, chat, now);
            CountsOf(s, ops, chat, now) == c.(allowed := burst + c.allowed, evictions := 1 + c.evictions)
  {
    var id, evict := |s.cells|, Evict(chat);
    var fetch, take := Fetch(task, chat, now, burst, 60), TakeHeld(task, now);
    var s1 := Step(s, evict);
    SpendFromNew(s1, chat, burst, now, task);
    var s3 := Step(Step(s1, fetch), take);
    assert s1.index[chat := id] == s.index[chat := id];
    assert (s.cells + [CellWith(chat, burst - 1, now)])[id := CellWith(chat, 0, now)] == s.cells + [CellWith(chat, 0, now)];
    ops := SpendAll(s3, chat, id, burst - 1, burst, now, task, rest);
    ops := Prepend(Step(s1, fetch), take, ops, chat, now);
    ops := Prepend(s1, fetch, ops, chat, now);
    ops := Prepend(s, evict, ops, chat, now);
  }

  lemma {:induction false} EvictAndSpend(
    s: State, chat: Chat, evictions: nat, burst: nat, now: real, task: nat, rest: seq<Op>) returns (ops: seq<Op>)
    requires 0 < burst && task !in s.held && FixedFetches(rest, chat, burst, 60)
    requires IsRun(Emptied(s, chat, evictions, now), rest, now)
    ensures IsRun(s, ops, now) && FixedFetches(ops, chat, burst, 60)
    ensures var c := CountsOf(Emptied(s, chat, evictions, now), rest, chat, now);
            CountsOf(s, ops, chat, now) ==
            c.(allowed := evictions * burst + c.allowed, evictions := evictions + c.evictions)
    decreases evictions
  {
    if evictions == 0 {
      ops := rest;
    } else {
      ops := EvictAndSpend(EmptiedOnce(s, chat, now), chat, evictions - 1, burst, now, task, rest);
      ops := EvictOnce(s, chat, burst, now, task, ops);
      assert evictions * burst == (evictions - 1) * burst + burst;
    }
  }

  // -- One second after another --

  /** The straddlers 1 to `n`, all holding bucket 0. */
  function Waiting(n: nat, burst: nat): (held: map<nat, Held>)
    ensures forall t: nat :: t in held <==> 1 <= t <= n
    ensures forall t: nat :: t in held ==> held[t] == Held(0, burst, 60)
  {
    if n == 0 then map[] else Waiting(n - 1, burst)[n := Held(0, burst, 60)]
  }

  /** Both the forgotten bucket 0 and the known bucket are empty, and `n` straddlers wait. */
  ghost predicate BothEmpty(s: State, chat: Chat, n: nat, burst: nat, now: real) {
    && 0 < |s.cells| && s.cells[0] == CellWith(chat, 0, now)
    && chat in s.index && 0 < s.index[chat] < |s.cells| && s.cells[s.index[chat]] == CellWith(chat, 0, now)
    && s.held == Waiting(n, burst)
  }

  /** A second earns exactly one token in an empty bucket, and the take spends it. */
  lemma SecondEarnsOne(b: Bucket, burst: nat, now: real)
    requires 0 < burst && b == Bucket(0.0, now)
    ensures Allows(b, now + 1.0, burst as real, Rate(60)) && Take(b, now + 1.0, burst as real, Rate(60)) == Bucket(0.0, now + 1.0)
  {
    assert Rate(60) == 1.0 && Earns(b, now + 1.0, 1.0) == 1.0;
  }

  lemma StraddlerTakes(s: State, chat: Chat, n: nat, burst: nat, now: real)
    requires BothEmpty(s, chat, n, burst, now) && 0 < burst && 0 < n
    ensures var take := TakeHeld(n, now + 1.0);
            && Enabled(s, take) && AllowsFor(s, take, chat) && Straddles(s, take, chat)
            && Step(s, take) == State(s.cells[0 := CellWith(chat, 0, now + 1.0)], s.index, Waiting(n - 1, burst), s.throttled)
  {
    SecondEarnsOne(s.cells[0].bucket, burst, now);
    assert Waiting(n, burst) - {n} == Waiting(n - 1, burst);
  }

  lemma NewcomerTakes(s: State, chat: Chat, burst: nat, now: real, task: nat)
    requires 0 < burst && task !in s.held
    requires chat in s.index && s.index[chat] < |s.cells| && s.cells[s.index[chat]] == CellWith(chat, 0, now)
    ensures var fetch, take := Fetch(task, chat, now + 1.0, burst, 60), TakeHeld(task, now + 1.0);
            && Enabled(Step(s, fetch), take)
            && Step(Step(s, fetch), take) == WithCell(s, s.index[chat], CellWith(chat, 0, now + 1.0))
            && AllowsFor(Step(s, fetch), take, chat) && !Straddles(Step(s, fetch), take, chat)
  {
    var fetch, take := Fetch(task, chat, now + 1.0, burst, 60), TakeHeld(task, now + 1.0);
    var s1 := Step(s, fetch);
    assert s1.index == s.index && s1.cells == s.cells && s1.held[task] == Held(s.index[chat], burst, 60);
    SecondEarnsOne(s.cells[s.index[chat]].bucket, burst, now);
    assert Step(s1, take).held == s.held;
  }

  lemma {:induction false} SecondBySecond(s: State, chat: Chat, n: nat, burst: nat, now: real) returns (ops: seq<Op>)
    requires BothEmpty(s, chat, n, burst, now) && 0 < burst
    ensures IsRun(s, ops, now) && FixedFetches(ops, chat, burst, 60)
    ensures CountsOf(s, ops, chat, now) == Counts(2 * n, 0, n, now + n as real)
    decreases n
  {
    ops := [];
    if n == 0 {
    } else {
      var later, task := now + 1.0, n + 1;
      var straddle, fetch, take := TakeHeld(n, later), Fetch(task, chat, later, burst, 60), TakeHeld(task, later);
      StraddlerTakes(s, chat, n, burst, now);
      var s1 := Step(s, straddle);
      NewcomerTakes(s1, chat, burst, now, task);
      var s3 := Step(Step(s1, fetch), take);
      assert s3.cells[0] == CellWith(chat, 0, later);
      ops := SecondBySecond(s3, chat, n - 1, burst, later);
      ops := Prepend(Step(s1, fetch), take, ops, chat, later);
      ops := Prepend(s1, fetch, ops, chat, later);
      ops := Prepend(s, straddle, ops, chat, now);
    }
  }

  // -- The extreme run --

  lemma {:induction false} EmptiedShape(s: State, chat: Chat, evictions: nat, now: real)
    ensures var e := Emptied(s, chat, evictions, now);
            && |e.cells| == |s.cells| + evictions && e.cells[..|s.cells|] == s.cells
            && e.held == s.held && e.throttled == s.throttled
            && (evictions > 0 ==>
                  chat in e.index && e.index[chat] == |e.cells| - 1 && e.cells[|e.cells| - 1] == CellWith(chat, 0, now))
    decreases evictions
  {
    if evictions == 0 {
    } else {
      var s1 := EmptiedOnce(s, chat, now);
      EmptiedShape(s1, chat, evictions - 1, now);
      assert s1.cells[..|s.cells|] == s.cells;
      var e := Emptied(s1, chat, evictions - 1, now);
      assert e.cells[..|s.cells|] == e.cells[..|s1.cells|][..|s.cells|];
      assert evictions == 1 ==> e == s1;
    }
  }

  /** A full bucket, an acquire about to take from it, and the straddlers-to-be behind it. */
  function Loaded(chat: Chat, burst: nat, straddlers: nat): State {
    State([CellWith(chat, burst, 0.0)], map[chat := 0], Waiting(straddlers, burst)[0 := Held(0, burst, 60)], 0)
  }

  /** Taking the first token leaves the straddlers waiting. */
  lemma FirstTake(chat: Chat, burst: nat, straddlers: nat)
    requires 0 < burst
    ensures var s, take := Loaded(chat, burst, straddlers), TakeHeld(0, 0.0);
            && Enabled(s, take) && AllowsFor(s, take, chat) && !Straddles(s, take, chat)
            && Step(s, take) == State([CellWith(chat, burst - 1, 0.0)], map[chat := 0], Waiting(straddlers, burst), 0)
  {
    var s := Loaded(chat, burst, straddlers);
    assert Earns(s.cells[0].bucket, 0.0, Rate(60)) == 0.0;
    assert s.held - {0} == Waiting(straddlers, burst);
  }

  lemma ExtremeRun(s: State, chat: Chat, burst: nat, evictions: nat, straddlers: nat) returns (ops: seq<Op>)
    requires 0 < burst && (straddlers > 0 ==> evictions > 0)
    requires s == State([CellWith(chat, burst - 1, 0.0)], map[chat := 0], Waiting(straddlers, burst), 0)
    ensures IsRun(s, ops, 0.0) && FixedFetches(ops, chat, burst, 60)
    ensures CountsOf(s, ops, chat, 0.0) ==
            Counts(burst - 1 + evictions * burst + 2 * straddlers, evictions, straddlers, straddlers as real)
  {
    var empty := WithCell(s, 0, CellWith(chat, 0, 0.0));
    ops := AfterFirstBurst(empty, chat, burst, evictions, straddlers);
    ops := SpendAll(s, chat, 0, burst - 1, burst, 0.0, straddlers + 1, ops);
  }

  lemma AfterFirstBurst(s: State, chat: Chat, burst: nat, evictions: nat, straddlers: nat) returns (ops: seq<Op>)
    requires s == State([CellWith(chat, 0, 0.0)], map[chat := 0], Waiting(straddlers, burst), 0)
    requires 0 < burst && (straddlers > 0 ==> evictions > 0)
    ensures IsRun(s, ops, 0.0) && FixedFetches(ops, chat, burst, 60)
    ensures CountsOf(s, ops, chat, 0.0) ==
            Counts(evictions * burst + 2 * straddlers, evictions, straddlers, straddlers as real)
  {
    EmptiedShape(s, chat, evictions, 0.0);
    var last := Emptied(s, chat, evictions, 0.0);
    assert last.cells[0] == last.cells[..1][0];
    ops := [];
    if straddlers > 0 {
      ops := SecondBySecond(last, chat, straddlers, burst, 0.0);
    }
    ops := EvictAndSpend(s, chat, evictions, burst, 0.0, straddlers + 1, ops);
  }

  /** The admission bound is met, for every burst, every number of evictions and every number of
      straddlers (which need an eviction to straddle). At one token a second: a burst; then,
      while the straddlers wait with the first bucket, an eviction and a new burst, as often as
      wanted; then each second one straddler and one newcomer. */
  lemma BoundIsMet(chat: Chat, burst: nat, evictions: nat, straddlers: nat) returns (s: State, ops: seq<Op>)
    requires 0 < burst && (straddlers > 0 ==> evictions > 0)
    ensures Sane(s, 0.0) && IsRun(s, ops, 0.0)
    ensures FixedHeld(s, chat, burst, 60) && FixedFetches(ops, chat, burst, 60)
    ensures ops != [] && TakesFor(s, ops[0], chat) && !Straddles(s, ops[0], chat)
    ensures Evictions(ops, chat) == evictions && Straddlers(s, ops, chat, 0.0) == straddlers
    ensures Allowed(s, ops, chat, 0.0) as real ==
            burst as real + Worth(ops[0].now, End(ops, 0.0), Rate(60)) + (evictions * burst) as real + straddlers as real
  {
    s := Loaded(chat, burst, straddlers);
    FirstTake(chat, burst, straddlers);
    ops := ExtremeRun(Step(s, TakeHeld(0, 0.0)), chat, burst, evictions, straddlers);
    ops := Prepend(s, TakeHeld(0, 0.0), ops, chat, 0.0);
    assert Rate(60) == 1.0;
    assert Worth(0.0, straddlers as real, 1.0) == straddlers as real;
  }
}
