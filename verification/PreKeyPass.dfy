/**
 What an operation that nothing disturbs achieves: an upload pass offers the server every key of the
 window that is due, generating exactly those the window lacks, and a single-key request hands out
 the least key left over, or mints the next one.
 */
module PreKeyPass {
  import opened PreKeyPlan
  import opened PreKeyProtocol
  import opened PreKeyReuse

  // -- Planning, in plain arithmetic --

  /** Where generation starts: at the counter if a window is in use, else with the batch. */
  function GenFrom(w: Watermarks, m: U32): nat {
    if 0 < w.first <= w.next then w.next else DueStart(w.first, w.next, m)
  }

  lemma PlanFor(w: Watermarks, m: U32, wanted: nat)
    requires 1 <= wanted <= MAX_PREKEY_ID && Fits(DueStart(w.first, w.next, m), wanted)
    ensures WrapFree(w.first, w.next, m, wanted)
    ensures var p, start := PlanPreKeyUpload(w.first, w.next, m, wanted), DueStart(w.first, w.next, m);
            && p.windowStart == start && p.genStart == GenFrom(w, m) && p.newNext == Max(GenFrom(w, m), start + wanted)
            && p.genCount == p.newNext - p.genStart
  {
    WrapFreeIffItFits(w.first, w.next, m, wanted);
    if 0 < w.first <= w.next {
      WindowKeptIffItFits(w.first, w.next, m, wanted);
      KeptWindowShape(w.first, w.next, m, wanted);
    } else {
      FitsMeaning(DueStart(w.first, w.next, m), wanted);
      StartIsFresh(w.next, m);
      FreshWindowShape(StartPreKeyId(w.next, m), wanted);
    }
  }

  lemma {:induction false} MaxExists(ids: set<nat>) returns (max: nat)
    ensures IsMax(ids, max)
    decreases ids
  {
    if ids == {} {
      max := 0;
    } else {
      var id :| id in ids;
      var rest := MaxExists(ids - {id});
      max := Max(id, rest);
      assert forall i :: i in ids ==> i == id || i in ids - {id};
    }
  }

  lemma {:induction false} MinExists(ids: set<nat>) returns (min: nat)
    requires ids != {}
    ensures IsMin(ids, min)
    decreases ids
  {
    var id :| id in ids;
    if ids == {id} {
      min := id;
    } else {
      assert ids - {id} != {};
      var rest := MinExists(ids - {id});
      min := Min(id, rest);
      assert forall i :: i in ids ==> i == id || i in ids - {id};
    }
  }

  // -- An upload pass --

  /** Events so far, and the generation of a batch unless it is empty. */
  ghost function WithBatch(events: seq<Event>, from: nat, count: nat): seq<Event> {
    if count == 0 then events else events + [Generated(Range(from, count))]
  }

  lemma PassPlans(s: State, m: U32, path: seq<State>, s0: State) returns (longer: seq<State>)
    requires IsPath(path, s0) && path[|path| - 1] == s && s.pc.PassReady? && IsMax(s.rows, m)
    requires WrapFree(s.mem.first, s.mem.next, m, s.pc.wanted)
    ensures IsPath(longer, s0)
    ensures var plan := PlanPreKeyUpload(s.mem.first, s.mem.next, m, s.pc.wanted);
            longer[|longer| - 1] ==
            s.(rows := s.rows + Range(plan.genStart, plan.genCount), events := WithBatch(s.events, plan.genStart, plan.genCount),
               pc := PassStored(plan, s.pc.wanted, s.pc.mayCollapse))
  {
    assert Enabled(s, PlanPass(m));
    var s1 := Step(s, PlanPass(m));
    longer := Extend(path, s0, s1);
    assert Enabled(s1, StoreBatch);
    longer := Extend(longer, s0, Step(s1, StoreBatch));
  }

  lemma PassFlushes(s: State, path: seq<State>, s0: State) returns (longer: seq<State>)
    requires IsPath(path, s0) && path[|path| - 1] == s && s.pc.PassStored?
    ensures IsPath(longer, s0)
    ensures var marks := Watermarks(s.pc.plan.windowStart, s.pc.plan.newNext);
            longer[|longer| - 1] == s.(mem := marks, disk := marks, pc := PassFlushed(s.pc.plan, s.pc.wanted, s.pc.mayCollapse))
  {
    assert Enabled(s, MarkPass);
    var s1 := Step(s, MarkPass);
    longer := Extend(path, s0, s1);
    assert Enabled(s1, FlushPass(true));
    longer := Extend(longer, s0, Step(s1, FlushPass(true)));
  }

  lemma PassAbandons(s: State, ids: set<nat>, last: nat, path: seq<State>, s0: State) returns (longer: seq<State>)
    requires IsPath(path, s0) && path[|path| - 1] == s && s.pc.PassFlushed?
    requires ids == WindowRows(s, s.pc.plan, s.pc.wanted) != {} && IsMax(ids, last)
    ensures IsPath(longer, s0)
    ensures var marks := Watermarks(Max(s.pc.plan.windowStart, SaturatingInc(last)), s.pc.plan.newNext);
            longer[|longer| - 1] == s.(mem := marks, pc := PassAbandoned(ids))
  {
    assert Enabled(s, LoadPass(ids, 0));
    var s1 := Step(s, LoadPass(ids, 0));
    assert s1 == s.(pc := PassLoaded(s.pc.plan, ids));
    longer := Extend(path, s0, s1);
    assert Enabled(s1, AbandonPass(last));
    longer := Extend(longer, s0, Step(s1, AbandonPass(last)));
  }

  lemma PassSends(s: State, path: seq<State>, s0: State) returns (longer: seq<State>)
    requires IsPath(path, s0) && path[|path| - 1] == s && s.pc.PassAbandoned?
    ensures IsPath(longer, s0)
    ensures longer[|longer| - 1] == s.(disk := s.mem, pc := Idle, events := s.events + [Uploaded(s.pc.ids)])
  {
    assert Enabled(s, FlushAbandon(true));
    var s1 := Step(s, FlushAbandon(true));
    longer := Extend(path, s0, s1);
    assert Enabled(s1, Send);
    longer := Extend(longer, s0, Step(s1, Send));
  }

  /** The keys a pass offers: those of the window that are stored, and those it generates. */
  ghost predicate Offered(s: State, m: U32, wanted: nat, ids: set<nat>) {
    var start := DueStart(s.mem.first, s.mem.next, m);
    forall id: nat :: id in ids <==> start <= id < start + wanted && (id in s.rows || GenFrom(s.mem, m) <= id)
  }

  /** How a pass that sends ends. */
  ghost predicate Sent(s: State, s': State, m: U32, wanted: nat, ids: set<nat>) {
    var start, from := DueStart(s.mem.first, s.mem.next, m), GenFrom(s.mem, m);
    && s'.pc.Idle? && s'.mem == s'.disk && s'.wrapped == s.wrapped && s'.lapsed == s.lapsed
    && s'.events == WithBatch(s.events, from, Max(from, start + wanted) - from) + [Uploaded(ids)]
    && s'.mem.next == Max(from, start + wanted)
    && (forall id :: id in ids ==> id < s'.mem.first) && s'.mem.first - 1 in ids
  }

  lemma ReadyPassSends(s: State, m: U32, path: seq<State>, s0: State) returns (ids: set<nat>, longer: seq<State>)
    requires IsPath(path, s0) && path[|path| - 1] == s && s.pc.PassReady? && IsMax(s.rows, m) && WantedOk(s.pc.wanted)
    requires Fits(DueStart(s.mem.first, s.mem.next, m), s.pc.wanted)
    requires exists id: nat :: Due(s, m, s.pc.wanted, id)
    ensures IsPath(longer, s0)
    ensures Offered(s, m, s.pc.wanted, ids) && Sent(s, longer[|longer| - 1], m, s.pc.wanted, ids)
  {
    var wanted := s.pc.wanted;
    PlanFor(s.mem, m, wanted);
    PlanCoversWindow(s.mem.first, s.mem.next, m, wanted);
    longer := PassPlans(s, m, path, s0);
    longer := PassFlushes(longer[|longer| - 1], longer, s0);
    var flushed := longer[|longer| - 1];
    ids := WindowRows(flushed, flushed.pc.plan, wanted);
    var some: nat :| Due(s, m, wanted, some);
    assert some in ids;
    var last := MaxExists(ids);
    longer := PassAbandons(flushed, ids, last, longer, s0);
    longer := PassSends(longer[|longer| - 1], longer, s0);
  }

  ghost predicate Due(s: State, m: U32, wanted: nat, id: nat) {
    var start := DueStart(s.mem.first, s.mem.next, m);
    start <= id < start + wanted && (id in s.rows || GenFrom(s.mem, m) <= id)
  }

  /** An upload pass, undisturbed, offers in one IQ exactly the keys of the due window that are stored
      or that it generates, from the counter on and only up to the end of the window; and it ends
      with both watermarks durable, the first past every key offered. */
  lemma UndisturbedPassUploads(s: State, configured: nat, m: U32) returns (ids: set<nat>, path: seq<State>)
    requires s.pc.Idle? && IsMax(s.rows, m)
    requires Fits(DueStart(s.mem.first, s.mem.next, m), ClampWantedPreKeyCount(configured))
    requires exists id: nat :: Due(s, m, ClampWantedPreKeyCount(configured), id)
    ensures IsPath(path, s)
    ensures Offered(s, m, ClampWantedPreKeyCount(configured), ids)
    ensures Sent(s, path[|path| - 1], m, ClampWantedPreKeyCount(configured), ids)
  {
    var wanted := ClampWantedPreKeyCount(configured);
    ClampIsInRange(configured);
    assert Enabled(s, BeginPass(configured));
    var s1 := Step(s, BeginPass(configured));
    path := Extend([s], s, s1);
    assert forall id: nat :: Due(s, m, wanted, id) <==> Due(s1, m, wanted, id);
    ids, path := ReadyPassSends(s1, m, path, s);
  }

  /** The pass reaches its collapse branch and starts over. */
  lemma PassCollapses(s: State, configured: nat, path: seq<State>, s0: State) returns (longer: seq<State>)
    requires IsPath(path, s0) && path[|path| - 1] == s && s.pc.PassFlushed? && s.pc.mayCollapse && Collapses(s)
    ensures IsPath(longer, s0)
    ensures longer[|longer| - 1] ==
            s.(mem := Watermarks(s.pc.plan.newNext, s.pc.plan.newNext), pc := PassReady(ClampWantedPreKeyCount(configured), false))
  {
    assert Enabled(s, LoadPass({}, configured));
    longer := Extend(path, s0, Step(s, LoadPass({}, configured)));
  }

  /** The window is full of ids, all of them consumed. */
  predicate Spent(s: State, wanted: nat) {
    && 0 < s.mem.first && s.mem.first + wanted <= s.mem.next
    && forall id :: id in s.rows ==> !(s.mem.first <= id < s.mem.first + wanted)
  }

  lemma SpentPassCollapses(s: State, configured: nat, m: U32) returns (path: seq<State>)
    requires s.pc.Idle? && IsMax(s.rows, m) && Spent(s, ClampWantedPreKeyCount(configured))
    requires Fits(s.mem.first, ClampWantedPreKeyCount(configured))
    ensures IsPath(path, s)
    ensures path[|path| - 1] ==
            s.(mem := Watermarks(s.mem.next, s.mem.next), disk := s.mem, pc := PassReady(ClampWantedPreKeyCount(configured), false))
  {
    var wanted := ClampWantedPreKeyCount(configured);
    ClampIsInRange(configured);
    PlanFor(s.mem, m, wanted);
    assert Enabled(s, BeginPass(configured));
    var s1 := Step(s, BeginPass(configured));
    path := Extend([s], s, s1);
    path := PassPlans(s1, m, path, s);
    path := PassFlushes(path[|path| - 1], path, s);
    var flushed := path[|path| - 1];
    assert flushed.rows == s.rows;
    assert WindowRows(flushed, flushed.pc.plan, wanted) == {};
    path := PassCollapses(flushed, configured, path, s);
  }

  /** An upload pass whose window is spent starts over once and uploads a full batch of new keys, from
      the counter on. */
  lemma UndisturbedPassRenews(s: State, configured: nat, m: U32) returns (path: seq<State>)
    requires s.pc.Idle? && IsMax(s.rows, m) && Spent(s, ClampWantedPreKeyCount(configured))
    requires Fits(s.mem.next, ClampWantedPreKeyCount(configured))
    ensures IsPath(path, s)
    ensures var s', ids := path[|path| - 1], Range(s.mem.next, ClampWantedPreKeyCount(configured));
            && s'.pc.Idle? && s'.mem == s'.disk && s'.wrapped == s.wrapped
            && s'.events == s.events + [Generated(ids), Uploaded(ids)]
            && s'.mem.first == s'.mem.next == s.mem.next + ClampWantedPreKeyCount(configured)
  {
    var wanted := ClampWantedPreKeyCount(configured);
    ClampIsInRange(configured);
    FitsMeaning(s.mem.next, wanted);
    FitsMeaning(s.mem.first, wanted);
    path := SpentPassCollapses(s, configured, m);
    var again := path[|path| - 1];
    assert Due(again, m, wanted, s.mem.next);
    var ids;
    ids, path := ReadyPassSends(again, m, path, s);
    assert ids == Range(s.mem.next, wanted);
    assert s.mem.next + wanted - 1 in ids;
  }

  // -- A single-key request --

  lemma SingleBegins(s: State, m: U32) returns (path: seq<State>)
    requires s.pc.Idle? && IsMax(s.rows, m) && Fits(DueStart(s.mem.first, s.mem.next, m), 1)
    ensures IsPath(path, s)
    ensures path[|path| - 1] == s.(pc := SinglePlanned(PlanPreKeyUpload(s.mem.first, s.mem.next, m, 1)))
  {
    PlanFor(s.mem, m, 1);
    assert Enabled(s, BeginSingle(m));
    path := Extend([s], s, Step(s, BeginSingle(m)));
  }

  /** With a stored key left in the window, the request hands out the least and generates nothing. */
  lemma UndisturbedSingleReuses(s: State, m: U32, id: nat) returns (path: seq<State>)
    requires s.pc.Idle? && IsMax(s.rows, m) && Fits(s.mem.first, 1)
    requires 0 < s.mem.first <= id < s.mem.next && id in s.rows
    requires forall j :: s.mem.first <= j < id ==> j !in s.rows
    ensures IsPath(path, s)
    ensures path[|path| - 1] == s.(mem := Watermarks(id, s.mem.next), events := s.events + [Given(id)],
                                   exposed := if s.disk.next <= id then s.exposed + {id} else s.exposed)
  {
    PlanFor(s.mem, m, 1);
    path := SingleBegins(s, m);
    var s1 := path[|path| - 1];
    assert IsMin(LeftoverRows(s1, s1.pc.plan), id);
    assert Enabled(s1, ReuseSingle(id, true));
    path := Extend(path, s, Step(s1, ReuseSingle(id, true)));
  }

  lemma SingleMints(s: State, path: seq<State>, s0: State) returns (longer: seq<State>)
    requires IsPath(path, s0) && path[|path| - 1] == s && s.pc.SinglePlanned? && Mints(s, s.pc.plan)
    requires MintId(s, s.pc.plan) == MintRaw(s, s.pc.plan)
    ensures IsPath(longer, s0)
    ensures var id, plan := MintRaw(s, s.pc.plan), s.pc.plan;
            var marks := Watermarks(if plan.genCount > 0 then plan.windowStart else id, SaturatingInc(id));
            longer[|longer| - 1] ==
            s.(mem := marks, rows := s.rows + {id}, events := s.events + [Generated({id})], pc := SingleMarked(id))
  {
    assert Enabled(s, MintSingle);
    var s1 := Step(s, MintSingle);
    longer := Extend(path, s0, s1);
    assert Enabled(s1, MarkSingle);
    longer := Extend(longer, s0, Step(s1, MarkSingle));
  }

  lemma SingleFlushes(s: State, path: seq<State>, s0: State) returns (longer: seq<State>)
    requires IsPath(path, s0) && path[|path| - 1] == s && s.pc.SingleMarked?
    ensures IsPath(longer, s0)
    ensures longer[|longer| - 1] == s.(disk := s.mem, events := s.events + [Given(s.pc.id)], pc := Idle)
  {
    assert Enabled(s, FlushSingle(true));
    longer := Extend(path, s0, Step(s, FlushSingle(true)));
  }

  /** Otherwise it mints the next id, hands it out once the counter past it is durable, and the window
      starts with it. */
  lemma UndisturbedSingleMints(s: State, m: U32) returns (path: seq<State>)
    requires s.pc.Idle? && IsMax(s.rows, m) && Has24Bits(GenFrom(s.mem, m))
    requires 0 < s.mem.first <= s.mem.next ==> forall j :: s.mem.first <= j < s.mem.next ==> j !in s.rows
    ensures IsPath(path, s)
    ensures var id, s' := GenFrom(s.mem, m), path[|path| - 1];
            s' == s.(mem := Watermarks(id, id + 1), disk := Watermarks(id, id + 1), rows := s.rows + {id},
                     events := s.events + [Generated({id}), Given(id)])
  {
    FitsMeaning(DueStart(s.mem.first, s.mem.next, m), 1);
    PlanFor(s.mem, m, 1);
    path := SingleBegins(s, m);
    var s1 := path[|path| - 1];
    assert s1.pc.plan.genCount == 0 ==> LeftoverRows(s1, s1.pc.plan) == {};
    path := SingleMints(s1, path, s);
    path := SingleFlushes(path[|path| - 1], path, s);
    assert s.events + [Generated({GenFrom(s.mem, m)})] + [Given(GenFrom(s.mem, m))] ==
           s.events + [Generated({GenFrom(s.mem, m)}), Given(GenFrom(s.mem, m))];
  }

  /** At the end of the id space, with the window spent, the request wraps: it mints id 1, and the window
      starts over with it. */
  lemma UndisturbedSingleWraps(s: State, m: U32) returns (path: seq<State>)
    requires s.pc.Idle? && IsMax(s.rows, m) && Has24Bits(s.mem.first) && !Has24Bits(s.mem.next)
    requires 0 < s.mem.first < s.mem.next && forall j :: s.mem.first <= j < s.mem.next ==> j !in s.rows
    ensures IsPath(path, s)
    ensures path[|path| - 1] ==
            s.(mem := Watermarks(1, 2), disk := Watermarks(1, 2), rows := s.rows + {1}, wrapped := true,
               events := s.events + [Generated({1}), Given(1)])
  {
    FitsMeaning(s.mem.first, 1);
    PlanFor(s.mem, m, 1);
    path := SingleBegins(s, m);
    var s1 := path[|path| - 1];
    assert LeftoverRows(s1, s1.pc.plan) == {};
    assert Enabled(s1, MintSingle);
    var s2 := Step(s1, MintSingle);
    path := Extend(path, s, s2);
    assert Enabled(s2, MarkSingle);
    path := Extend(path, s, Step(s2, MarkSingle));
    path := SingleFlushes(path[|path| - 1], path, s);
    assert s.events + [Generated({1})] + [Given(1)] == s.events + [Generated({1}), Given(1)];
  }
}
