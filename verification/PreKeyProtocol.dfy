/**
 Pre-key id allocation as a durable state machine: upload passes and single-key requests
 (serialized by the upload lock), failing flushes, crashes and reloads, the lazy saver,
 cancelled passes and concurrent key consumption, in any order.

 `mem` and `disk` are the two copies of the watermarks, both `loaded` at the start; stored rows
 are durable at once.
 The history variables are `events` (ids generated, put in an upload IQ, or handed out in a
 retry receipt), `wrapped` (some allocation crossed the 24-bit boundary), `lapsed` (NEXT was
 advanced in memory and its flush failed or never ran) and `exposed` (ids handed out before
 the counter on disk had passed them).
 */
module PreKeyProtocol {
  import opened PreKeyPlan

  datatype Watermarks = Watermarks(first: U32, next: U32)

  datatype Event = Generated(ids: set<nat>) | Uploaded(ids: set<nat>) | Given(id: nat)

  /** Where the operation holding the upload lock stands. */
  datatype Pc =
    | Idle
    | PassReady(wanted: nat, mayCollapse: bool)
    | PassPlanned(plan: Plan, wanted: nat, mayCollapse: bool)
    | PassStored(plan: Plan, wanted: nat, mayCollapse: bool)
    | PassMarked(plan: Plan, wanted: nat, mayCollapse: bool)
    | PassFlushed(plan: Plan, wanted: nat, mayCollapse: bool)
    | PassLoaded(plan: Plan, ids: set<nat>)
    | PassAbandoned(ids: set<nat>)
    | PassSending(ids: set<nat>)
    | SinglePlanned(plan: Plan)
    | SingleStored(id: nat, marks: Watermarks)
    | SingleMarked(id: nat)

  datatype State = State(
    mem: Watermarks,
    disk: Watermarks,
    rows: set<nat>,
    loaded: Watermarks,
    pc: Pc,
    events: seq<Event>,
    wrapped: bool,
    lapsed: bool,
    exposed: set<nat>)

  datatype Action =
    | BeginPass(configured: nat)
    | PlanPass(maxId: U32)
    | StoreBatch
    | MarkPass
    | FlushPass(ok: bool)
    | LoadPass(decodable: set<nat>, configured: nat)
    | AbandonPass(lastId: nat)
    | FlushAbandon(ok: bool)
    | Send
    | BeginSingle(maxId: U32)
    | ReuseSingle(id: nat, decodes: bool)
    | MintSingle
    | MarkSingle
    | FlushSingle(ok: bool)
    | Consume(id: nat)
    | Save
    | Crash
    | CutShort

  ghost predicate IsMax(ids: set<nat>, max: nat) {
    if ids == {} then max == 0 else max in ids && forall i :: i in ids ==> i <= max
  }

  ghost predicate IsMin(ids: set<nat>, min: nat) {
    min in ids && forall i :: i in ids ==> min <= i
  }

  function Range(from: nat, count: nat): (ids: set<nat>)
    ensures forall i :: i in ids <==> from <= i < from + count
  {
    if count == 0 then {} else Range(from, count - 1) + {from + count - 1}
  }

  function SaturatingInc(x: nat): U32 {
    Min(x + 1, U32_LIMIT - 1)
  }

  /** The stored rows of the window an upload pass offers. */
  function WindowRows(s: State, plan: Plan, wanted: nat): set<nat> {
    set i | i in s.rows && plan.windowStart <= i < plan.windowStart + wanted
  }

  /** The stored rows a single-key request can reuse: the whole unuploaded window. */
  function LeftoverRows(s: State, plan: Plan): set<nat> {
    set i | i in s.rows && plan.windowStart <= i < s.mem.next
  }

  predicate Mints(s: State, plan: Plan) {
    plan.genCount > 0 || LeftoverRows(s, plan) == {}
  }

  /** The id a single-key request mints when it cannot reuse one. */
  function MintRaw(s: State, plan: Plan): nat {
    if plan.genCount > 0 then plan.genStart else Max(s.mem.next, SaturatingInc(plan.windowStart))
  }

  function MintId(s: State, plan: Plan): nat {
    if plan.genCount == 0 && MintRaw(s, plan) > MAX_PREKEY_ID then 1 else MintRaw(s, plan)
  }

  ghost predicate Enabled(s: State, a: Action) {
    match a
    case BeginPass(_) => s.pc.Idle?
    case PlanPass(maxId) => s.pc.PassReady? && IsMax(s.rows, maxId)
    case StoreBatch => s.pc.PassPlanned?
    case MarkPass => s.pc.PassStored?
    case FlushPass(_) => s.pc.PassMarked?
    case LoadPass(decodable, _) => s.pc.PassFlushed? && decodable <= WindowRows(s, s.pc.plan, s.pc.wanted)
    case AbandonPass(lastId) => s.pc.PassLoaded? && s.pc.ids != {} && IsMax(s.pc.ids, lastId)
    case FlushAbandon(_) => s.pc.PassAbandoned?
    case Send => s.pc.PassSending?
    case BeginSingle(maxId) => s.pc.Idle? && IsMax(s.rows, maxId)
    case ReuseSingle(id, _) =>
      s.pc.SinglePlanned? && s.pc.plan.genCount == 0 && IsMin(LeftoverRows(s, s.pc.plan), id)
    case MintSingle => s.pc.SinglePlanned? && Mints(s, s.pc.plan)
    case MarkSingle => s.pc.SingleStored?
    case FlushSingle(_) => s.pc.SingleMarked?
    case Consume(_) => true
    case Save => true
    case Crash => true
    case CutShort => !s.pc.Idle?
  }

  ghost function NextPc(s: State, a: Action): Pc
    requires Enabled(s, a)
  {
    match a
    case BeginPass(configured) => PassReady(ClampWantedPreKeyCount(configured), true)
    case PlanPass(maxId) =>
      PassPlanned(PlanPreKeyUpload(s.mem.first, s.mem.next, maxId, s.pc.wanted), s.pc.wanted, s.pc.mayCollapse)
    case StoreBatch => PassStored(s.pc.plan, s.pc.wanted, s.pc.mayCollapse)
    case MarkPass => PassMarked(s.pc.plan, s.pc.wanted, s.pc.mayCollapse)
    case FlushPass(ok) => if ok then PassFlushed(s.pc.plan, s.pc.wanted, s.pc.mayCollapse) else Idle
    case LoadPass(decodable, configured) =>
      if Collapses(s) then (if s.pc.mayCollapse then PassReady(ClampWantedPreKeyCount(configured), false) else Idle)
      else if decodable == {} then Idle
      else PassLoaded(s.pc.plan, decodable)
    case AbandonPass(_) => PassAbandoned(s.pc.ids)
    case FlushAbandon(ok) => if ok then PassSending(s.pc.ids) else Idle
    case BeginSingle(maxId) => SinglePlanned(PlanPreKeyUpload(s.mem.first, s.mem.next, maxId, 1))
    case MintSingle =>
      var plan, id := s.pc.plan, MintId(s, s.pc.plan);
      SingleStored(id, Watermarks(if plan.genCount > 0 then plan.windowStart else id, SaturatingInc(id)))
    case MarkSingle => SingleMarked(s.pc.id)
    case Consume(_) => s.pc
    case Save => s.pc
    case _ => Idle
  }

  /** A fully consumed window that the plan adds nothing to. */
  predicate Collapses(s: State) {
    s.pc.PassFlushed? && WindowRows(s, s.pc.plan, s.pc.wanted) == {} && s.pc.plan.genCount == 0
  }

  ghost function NextMem(s: State, a: Action): Watermarks
    requires Enabled(s, a)
  {
    match a
    case MarkPass => Watermarks(s.pc.plan.windowStart, s.pc.plan.newNext)
    case LoadPass(_, _) => if Collapses(s) then Watermarks(s.pc.plan.newNext, s.pc.plan.newNext) else s.mem
    case AbandonPass(lastId) =>
      Watermarks(Max(s.pc.plan.windowStart, SaturatingInc(lastId)), s.pc.plan.newNext)
    case ReuseSingle(id, _) => if id != s.pc.plan.windowStart then Watermarks(id, s.mem.next) else s.mem
    case MarkSingle => s.pc.marks
    case Crash => s.disk
    case _ => s.mem
  }

  ghost function NextEvents(s: State, a: Action): seq<Event>
    requires Enabled(s, a)
  {
    match a
    case StoreBatch =>
      if s.pc.plan.genCount > 0 then s.events + [Generated(Range(s.pc.plan.genStart, s.pc.plan.genCount))]
      else s.events
    case Send => s.events + [Uploaded(s.pc.ids)]
    case ReuseSingle(id, decodes) => if decodes then s.events + [Given(id)] else s.events
    case MintSingle => s.events + [Generated({MintId(s, s.pc.plan)})]
    case FlushSingle(ok) => if ok then s.events + [Given(s.pc.id)] else s.events
    case _ => s.events
  }

  predicate Flushes(a: Action) {
    a.FlushPass? || a.FlushAbandon? || a.FlushSingle?
  }

  /** NEXT has been advanced in memory and its flush has not run. */
  predicate AdvancedUnflushed(pc: Pc) {
    pc.PassMarked? || pc.SingleMarked?
  }

  ghost predicate Wraps(s: State, a: Action)
    requires Enabled(s, a)
  {
    match a
    case PlanPass(maxId) => !WrapFree(s.mem.first, s.mem.next, maxId, s.pc.wanted)
    case BeginSingle(maxId) => !WrapFree(s.mem.first, s.mem.next, maxId, 1)
    case MintSingle => MintId(s, s.pc.plan) != MintRaw(s, s.pc.plan)
    case _ => false
  }

  ghost function Step(s: State, a: Action): State
    requires Enabled(s, a)
  {
    State(
      mem := NextMem(s, a),
      disk := if a.Save? || (Flushes(a) && a.ok) then s.mem else s.disk,
      rows :=
        match a
        case StoreBatch => s.rows + Range(s.pc.plan.genStart, s.pc.plan.genCount)
        case MintSingle => s.rows + {MintId(s, s.pc.plan)}
        case Consume(id) => s.rows - {id}
        case _ => s.rows,
      loaded := s.loaded,
      pc := NextPc(s, a),
      events := NextEvents(s, a),
      wrapped := s.wrapped || Wraps(s, a),
      lapsed := s.lapsed || (AdvancedUnflushed(s.pc) && (a.CutShort? || (Flushes(a) && !a.ok))),
      exposed := if a.ReuseSingle? && a.decodes && a.id >= s.disk.next then s.exposed + {a.id} else s.exposed)
  }

  // -- FIRST never passes NEXT --

  predicate Ordered(w: Watermarks) {
    w.first <= w.next
  }

  predicate WantedOk(wanted: nat) {
    1 <= wanted <= MAX_PRE_KEY_UPLOAD_BATCH
  }

  /** What the operation in progress knows, whether or not ids have wrapped. */
  ghost predicate PcOk(s: State) {
    match s.pc
    case PassReady(wanted, may) => WantedOk(wanted) && (!may ==> s.mem.first == s.mem.next)
    case PassPlanned(plan, wanted, may) => WantedOk(wanted) && Covers(plan, wanted) && (!may ==> plan.genCount > 0)
    case PassStored(plan, wanted, may) => WantedOk(wanted) && Covers(plan, wanted) && (!may ==> plan.genCount > 0)
    case PassMarked(plan, wanted, may) => WantedOk(wanted) && Covers(plan, wanted) && (!may ==> plan.genCount > 0)
    case PassFlushed(plan, wanted, may) => WantedOk(wanted) && Covers(plan, wanted) && (!may ==> plan.genCount > 0)
    case PassLoaded(plan, ids) => forall i :: i in ids ==> plan.windowStart <= i < plan.newNext
    case SinglePlanned(plan) => Covers(plan, 1)
    case SingleStored(id, marks) => Ordered(marks)
    case _ => true
  }

  /** In order, or still the pair the device was loaded with. */
  predicate Sound(s: State, w: Watermarks) {
    Ordered(w) || w == s.loaded
  }

  ghost predicate OrderOk(s: State) {
    Sound(s, s.mem) && Sound(s, s.disk) && PcOk(s)
  }

  lemma StepKeepsPc(s: State, a: Action)
    requires OrderOk(s) && Enabled(s, a)
    ensures PcOk(Step(s, a))
  {
    match a
    case BeginPass(configured) => ClampIsInRange(configured);
    case LoadPass(_, configured) => ClampIsInRange(configured);
    case PlanPass(maxId) =>
      PlanCoversWindow(s.mem.first, s.mem.next, maxId, s.pc.wanted);
      if !s.pc.mayCollapse {
        CollapsedWindowGenerates(s.mem.next, maxId, s.pc.wanted);
      }
    case BeginSingle(maxId) => PlanCoversWindow(s.mem.first, s.mem.next, maxId, 1);
    case _ =>
  }

  lemma StepKeepsOrder(s: State, a: Action)
    requires OrderOk(s) && Enabled(s, a)
    ensures Sound(Step(s, a), Step(s, a).mem) && Sound(Step(s, a), Step(s, a).disk)
  {
  }

  // -- What the watermarks protect --

  /** Every id below this has left the unuploaded window behind; where there is no window yet, or
      FIRST is past NEXT, the counter takes its place, as in the planner. */
  function Floor(w: Watermarks): nat {
    if w.first == 0 || w.first > w.next then w.next else w.first
  }

  ghost predicate WasUploaded(events: seq<Event>, id: nat) {
    exists i :: 0 <= i < |events| && events[i].Uploaded? && id in events[i].ids
  }

  ghost predicate WasGiven(events: seq<Event>, id: nat) {
    exists i :: 0 <= i < |events| && events[i] == Given(id)
  }

  ghost predicate Published(s: State) {
    && (forall id: nat :: WasUploaded(s.events, id) ==> id < Floor(s.disk))
    && (forall id: nat :: WasGiven(s.events, id) ==> id in s.exposed || id < s.disk.next)
  }

  /** The plan was made from the watermarks as they are. */
  predicate PlanFits(mem: Watermarks, plan: Plan) {
    Floor(mem) <= plan.windowStart && mem.next <= plan.genStart && mem.next <= plan.newNext
  }

  ghost predicate AllAbove(events: seq<Event>, ids: set<nat>) {
    forall u: nat, id: nat :: WasUploaded(events, u) && id in ids ==> u < id
  }

  ghost predicate AllBelow(ids: set<nat>, limit: nat) {
    forall id :: id in ids ==> id < limit
  }

  ghost predicate PcFits(s: State) {
    match s.pc
    case PassPlanned(plan, _, _) => PlanFits(s.mem, plan)
    case PassStored(plan, _, _) => PlanFits(s.mem, plan)
    case PassMarked(plan, _, _) => s.mem == Watermarks(plan.windowStart, plan.newNext)
    case PassFlushed(plan, _, _) => s.mem == Watermarks(plan.windowStart, plan.newNext)
    case PassLoaded(plan, _) => s.mem == Watermarks(plan.windowStart, plan.newNext) && plan.windowStart > 0
    case PassAbandoned(ids) => AllBelow(ids, Floor(s.mem)) && AllAbove(s.events, ids)
    case PassSending(ids) => AllBelow(ids, Floor(s.disk)) && AllAbove(s.events, ids)
    case SinglePlanned(plan) => PlanFits(s.mem, plan)
    case SingleStored(id, marks) => s.mem.next <= id < marks.next && Floor(s.mem) <= Floor(marks)
    case SingleMarked(id) => id < s.mem.next
    case _ => true
  }

  ghost predicate DiskBehind(s: State) {
    s.disk.next <= s.mem.next && Floor(s.disk) <= Floor(s.mem)
  }

  ghost predicate Durable(s: State) {
    && s.exposed == {}
    && (!AdvancedUnflushed(s.pc) ==> s.disk.next == s.mem.next)
  }

  ghost predicate AllocOk(s: State) {
    DiskBehind(s) && Published(s) && PcFits(s) && (!s.lapsed ==> Durable(s))
  }

  lemma MemAdvances(s: State, a: Action)
    requires OrderOk(s) && DiskBehind(s) && PcFits(s) && Enabled(s, a) && !Wraps(s, a)
    ensures DiskBehind(Step(s, a))
    ensures !a.Crash? ==> s.mem.next <= Step(s, a).mem.next && Floor(s.mem) <= Floor(Step(s, a).mem)
    ensures s.disk.next <= Step(s, a).disk.next && Floor(s.disk) <= Floor(Step(s, a).disk)
  {
  }

  // -- History --

  /** No id is in two upload IQs, none is generated after it was in one, and one generated after
      it was handed out had been exposed. */
  ghost predicate CompatibleWith(earlier: Event, later: Event, exposed: set<nat>) {
    && (earlier.Uploaded? && (later.Uploaded? || later.Generated?) ==> earlier.ids !! later.ids)
    && (earlier.Given? && later.Generated? && earlier.id in later.ids ==> earlier.id in exposed)
  }

  ghost predicate NoReuse(events: seq<Event>, exposed: set<nat>) {
    forall i, j :: 0 <= i < j < |events| ==> CompatibleWith(events[i], events[j], exposed)
  }

  lemma AppendEvent(events: seq<Event>, e: Event, exposed: set<nat>, exposed': set<nat>)
    requires NoReuse(events, exposed) && exposed <= exposed'
    requires e.Uploaded? || e.Generated? ==> forall id: nat :: WasUploaded(events, id) ==> id !in e.ids
    requires e.Generated? ==> forall id: nat :: WasGiven(events, id) && id in e.ids ==> id in exposed'
    ensures NoReuse(events + [e], exposed')
    ensures forall id: nat :: WasUploaded(events + [e], id) <==> WasUploaded(events, id) || (e.Uploaded? && id in e.ids)
    ensures forall id: nat :: WasGiven(events + [e], id) <==> WasGiven(events, id) || e == Given(id)
  {
    var all := events + [e];
    forall i, j | 0 <= i < j < |all|
      ensures CompatibleWith(all[i], all[j], exposed')
    {
      if j < |events| {
        assert CompatibleWith(events[i], events[j], exposed);
      } else if all[i].Uploaded? {
        assert forall id :: id in all[i].ids ==> WasUploaded(events, id);
      } else if all[i].Given? {
        assert WasGiven(events, all[i].id);
      }
    }
    AppendMembership(events, e);
  }

  lemma AppendMembership(events: seq<Event>, e: Event)
    ensures forall id: nat :: WasUploaded(events + [e], id) <==> WasUploaded(events, id) || (e.Uploaded? && id in e.ids)
    ensures forall id: nat :: WasGiven(events + [e], id) <==> WasGiven(events, id) || e == Given(id)
  {
    var all := events + [e];
    assert all[|events|] == e;
    forall id: nat
      ensures WasUploaded(all, id) <==> WasUploaded(events, id) || (e.Uploaded? && id in e.ids)
      ensures WasGiven(all, id) <==> WasGiven(events, id) || e == Given(id)
    {
      if i :| 0 <= i < |events| && events[i].Uploaded? && id in events[i].ids {
        assert all[i].Uploaded?;
      }
      if i :| 0 <= i < |events| && events[i] == Given(id) {
        assert all[i] == Given(id);
      }
    }
  }

  /** Everything a step generates lies at or above the counter in memory, hence above everything
      published. */
  lemma GenerationIsFresh(s: State, a: Action, id: nat)
    requires OrderOk(s) && AllocOk(s) && Enabled(s, a) && !Wraps(s, a)
    requires a.StoreBatch? || a.MintSingle?
    requires id in (if a.StoreBatch? then Range(s.pc.plan.genStart, s.pc.plan.genCount) else {MintId(s, s.pc.plan)})
    ensures s.mem.next <= id
    ensures !WasUploaded(s.events, id)
    ensures WasGiven(s.events, id) ==> id in s.exposed
  {
  }

  /** Everything a pass sends lies above everything sent before. */
  lemma SentIsFresh(s: State, id: nat)
    requires AllocOk(s) && s.pc.PassSending? && id in s.pc.ids
    ensures !WasUploaded(s.events, id)
  {
  }

  ghost predicate NewEvent(s: State, a: Action)
    requires Enabled(s, a)
  {
    |NextEvents(s, a)| > |s.events|
  }

  lemma StepKeepsNoReuse(s: State, a: Action)
    requires OrderOk(s) && AllocOk(s) && NoReuse(s.events, s.exposed) && Enabled(s, a) && !Wraps(s, a)
    ensures NoReuse(Step(s, a).events, Step(s, a).exposed)
  {
    var s' := Step(s, a);
    if NewEvent(s, a) {
      var e := s'.events[|s.events|];
      assert s'.events == s.events + [e];
      if e.Generated? {
        forall id | id in e.ids
          ensures !WasUploaded(s.events, id)
          ensures WasGiven(s.events, id) ==> id in s.exposed
        {
          GenerationIsFresh(s, a, id);
        }
      } else if e.Uploaded? {
        forall id | id in e.ids
          ensures !WasUploaded(s.events, id)
        {
          SentIsFresh(s, id);
        }
      }
      AppendEvent(s.events, e, s.exposed, s'.exposed);
    }
  }

  lemma StepKeepsPublished(s: State, a: Action)
    requires OrderOk(s) && AllocOk(s) && Enabled(s, a) && !Wraps(s, a)
    ensures Published(Step(s, a))
  {
    var s' := Step(s, a);
    MemAdvances(s, a);
    if NewEvent(s, a) {
      AppendMembership(s.events, s'.events[|s.events|]);
      assert s'.events == s.events + [s'.events[|s.events|]];
    }
  }

  lemma PlanningFits(s: State, a: Action)
    requires OrderOk(s) && Enabled(s, a) && !Wraps(s, a) && (a.PlanPass? || a.BeginSingle?)
    ensures PcFits(Step(s, a))
  {
    match a
    case PlanPass(maxId) => PlanIsMonotone(s.mem.first, s.mem.next, maxId, s.pc.wanted);
    case BeginSingle(maxId) => PlanIsMonotone(s.mem.first, s.mem.next, maxId, 1);
  }

  /** Abandoning moves FIRST past the ids to be sent, above everything sent before. */
  lemma SendingFits(s: State, a: Action)
    requires OrderOk(s) && Published(s) && DiskBehind(s) && PcFits(s) && Enabled(s, a)
    requires NextPc(s, a).PassAbandoned? || NextPc(s, a).PassSending?
    ensures PcFits(Step(s, a))
  {
  }

  lemma OtherwiseFits(s: State, a: Action)
    requires OrderOk(s) && PcFits(s) && Enabled(s, a) && !Wraps(s, a) && !a.PlanPass? && !a.BeginSingle?
    requires !NextPc(s, a).PassAbandoned? && !NextPc(s, a).PassSending?
    ensures PcFits(Step(s, a))
  {
  }

  lemma StepKeepsFit(s: State, a: Action)
    requires OrderOk(s) && AllocOk(s) && Enabled(s, a) && !Wraps(s, a)
    ensures PcFits(Step(s, a))
  {
    if a.PlanPass? || a.BeginSingle? {
      PlanningFits(s, a);
    } else if NextPc(s, a).PassAbandoned? || NextPc(s, a).PassSending? {
      SendingFits(s, a);
    } else {
      OtherwiseFits(s, a);
    }
  }

  lemma StepKeepsDurable(s: State, a: Action)
    requires OrderOk(s) && AllocOk(s) && Enabled(s, a) && !Wraps(s, a) && !Step(s, a).lapsed
    ensures Durable(Step(s, a))
  {
  }

  // -- Whole runs --

  /** Any stored rows and any watermarks, the same in memory and on disk; FIRST is 0 on a device from
      before the window existed, and may be past NEXT on a corrupt one. */
  predicate Starts(s: State) {
    && s.mem == s.disk == s.loaded && s.pc.Idle?
    && s.events == [] && !s.wrapped && !s.lapsed && s.exposed == {}
  }

  ghost predicate Follows(s: State, s': State) {
    exists a :: Enabled(s, a) && s' == Step(s, a)
  }

  ghost predicate IsRun(run: seq<State>) {
    && |run| > 0 && Starts(run[0])
    && forall i :: 0 < i < |run| ==> Follows(run[i - 1], run[i])
  }

  ghost predicate Inv(s: State) {
    OrderOk(s) && (!s.wrapped ==> AllocOk(s) && NoReuse(s.events, s.exposed))
  }

  lemma StepKeepsInv(s: State, a: Action)
    requires Inv(s) && Enabled(s, a)
    ensures Inv(Step(s, a))
  {
    StepKeepsPc(s, a);
    StepKeepsOrder(s, a);
    if !Step(s, a).wrapped {
      MemAdvances(s, a);
      StepKeepsPublished(s, a);
      StepKeepsFit(s, a);
      StepKeepsNoReuse(s, a);
      if !Step(s, a).lapsed {
        StepKeepsDurable(s, a);
      }
    }
  }

  lemma {:induction false} RunKeepsInv(run: seq<State>, i: nat)
    requires IsRun(run) && i < |run|
    ensures Inv(run[i])
    decreases i
  {
    if i == 0 {
    } else {
      RunKeepsInv(run, i - 1);
      assert Follows(run[i - 1], run[i]);
      var a :| Enabled(run[i - 1], a) && run[i] == Step(run[i - 1], a);
      StepKeepsInv(run[i - 1], a);
    }
  }

  lemma {:induction false} LoadedStays(run: seq<State>, i: nat)
    requires IsRun(run) && i < |run|
    ensures run[i].loaded == run[0].mem
    decreases i
  {
    if i == 0 {
    } else {
      LoadedStays(run, i - 1);
      assert Follows(run[i - 1], run[i]);
    }
  }

  /** In any run, wrapping or not, FIRST never passes NEXT in memory or on disk, except while a copy
      is still the corrupt pair the device was loaded with; and the rerun after a collapsed window
      never collapses again. */
  lemma WatermarksStayOrdered(run: seq<State>, i: nat)
    requires IsRun(run) && i < |run|
    ensures run[i].mem.first <= run[i].mem.next || run[i].mem == run[0].mem
    ensures run[i].disk.first <= run[i].disk.next || run[i].disk == run[0].mem
    ensures Collapses(run[i]) ==> run[i].pc.mayCollapse
  {
    RunKeepsInv(run, i);
    LoadedStays(run, i);
  }

  /** Until ids wrap, over every run of passes, single-key requests, failed IQs, failed flushes,
      cancellations, consumption and crashes: no id is put in two upload IQs, and no id that was
      put in one is ever generated again. */
  lemma NoUploadedIdReused(run: seq<State>, n: nat, i: nat, j: nat)
    requires IsRun(run) && n < |run| && !run[n].wrapped
    requires i < j < |run[n].events| && run[n].events[i].Uploaded?
    ensures run[n].events[j].Uploaded? ==> run[n].events[i].ids !! run[n].events[j].ids
    ensures run[n].events[j].Generated? ==> run[n].events[i].ids !! run[n].events[j].ids
  {
    RunKeepsInv(run, n);
    assert CompatibleWith(run[n].events[i], run[n].events[j], run[n].exposed);
  }

  /** An id handed out in a retry receipt is generated again only if it was handed out before the
      counter on disk had passed it. */
  lemma OnlyExposedIdsAreReminted(run: seq<State>, n: nat, i: nat, j: nat)
    requires IsRun(run) && n < |run| && !run[n].wrapped
    requires i < j < |run[n].events| && run[n].events[i].Given? && run[n].events[j].Generated?
    requires run[n].events[i].id in run[n].events[j].ids
    ensures run[n].events[i].id in run[n].exposed
  {
    RunKeepsInv(run, n);
    assert CompatibleWith(run[n].events[i], run[n].events[j], run[n].exposed);
  }

  /** On runs where every advance of NEXT is followed by its flush, and that flush succeeds (or the
      process crashes first), nothing is ever exposed, so no handed-out id is generated again. */
  lemma NoGivenIdReused(run: seq<State>, n: nat, i: nat, j: nat)
    requires IsRun(run) && n < |run| && !run[n].wrapped && !run[n].lapsed
    requires i < j < |run[n].events| && run[n].events[i].Given? && run[n].events[j].Generated?
    ensures run[n].exposed == {}
    ensures run[n].events[i].id !in run[n].events[j].ids
  {
    RunKeepsInv(run, n);
    assert CompatibleWith(run[n].events[i], run[n].events[j], run[n].exposed);
  }

  // -- What the history variables say --

  /** A plan or mint that needs an id of more than 24 bits: in the window in use, in the batch after
      counter and stored rows, or as the single id past both watermarks. */
  ghost predicate OutOfIds(s: State, s': State) {
    || (s.pc.PassReady? && s'.pc.PassPlanned? && NoRoom(s, s.pc.wanted))
    || (s.pc.Idle? && s'.pc.SinglePlanned? && NoRoom(s, 1))
    || (s.pc.SinglePlanned? && s'.pc.SingleStored? && s.pc.plan.genCount == 0 &&
        !(Has24Bits(s.mem.next) && Has24Bits(s.pc.plan.windowStart + 1)))
  }

  ghost predicate NoRoom(s: State, wanted: nat) {
    exists m: U32 :: IsMax(s.rows, m) && !Fits(DueStart(s.mem.first, s.mem.next, m), wanted)
  }

  lemma StepWrapsIff(s: State, a: Action)
    requires Enabled(s, a) && (s.pc.PassReady? ==> 1 <= s.pc.wanted)
    ensures Wraps(s, a) <==> OutOfIds(s, Step(s, a))
  {
    match a
    case PlanPass(m) => RoomIff(s, m, s.pc.wanted);
    case BeginSingle(m) => RoomIff(s, m, 1);
    case _ =>
  }

  lemma RoomIff(s: State, m: U32, wanted: nat)
    requires IsMax(s.rows, m) && 1 <= wanted
    ensures WrapFree(s.mem.first, s.mem.next, m, wanted) <==> !NoRoom(s, wanted)
  {
    WrapFreeIffItFits(s.mem.first, s.mem.next, m, wanted);
  }

  ghost predicate OutOfIdsAt(run: seq<State>, i: nat) {
    i + 1 < |run| && OutOfIds(run[i], run[i + 1])
  }

  lemma FollowWraps(s: State, s': State)
    requires Inv(s) && Follows(s, s')
    ensures s'.wrapped <==> s.wrapped || OutOfIds(s, s')
  {
    var a :| Enabled(s, a) && s' == Step(s, a);
    StepWrapsIff(s, a);
  }

  lemma RunWraps(run: seq<State>, i: nat)
    requires IsRun(run) && i + 1 < |run|
    ensures run[i + 1].wrapped <==> run[i].wrapped || OutOfIdsAt(run, i)
  {
    RunKeepsInv(run, i);
    assert Follows(run[i + 1 - 1], run[i + 1]);
    FollowWraps(run[i], run[i + 1]);
  }

  /** A run counts as wrapped if and only if one of its plans or mints needed an id of more than 24 bits. */
  lemma {:induction false} WrappedIffOutOfIds(run: seq<State>, n: nat)
    requires IsRun(run) && n < |run|
    ensures run[n].wrapped <==> exists i: nat :: i < n && OutOfIdsAt(run, i)
    decreases n
  {
    if n == 0 {
    } else {
      WrappedIffOutOfIds(run, n - 1);
      RunWraps(run, n - 1);
    }
  }

  /** At step `i` NEXT has been advanced in memory, and its flush fails or never runs. */
  ghost predicate FlushLapsesAt(run: seq<State>, i: nat) {
    && i + 1 < |run| && AdvancedUnflushed(run[i].pc)
    && exists a: Action :: (a.CutShort? || (Flushes(a) && !a.ok)) && Enabled(run[i], a) && run[i + 1] == Step(run[i], a)
  }

  lemma {:induction false} LapsedIffFlushLapsed(run: seq<State>, n: nat)
    requires IsRun(run) && n < |run|
    ensures run[n].lapsed <==> exists i: nat :: i < n && FlushLapsesAt(run, i)
    decreases n
  {
    if n == 0 {
    } else {
      LapsedIffFlushLapsed(run, n - 1);
      assert Follows(run[n - 1], run[n]);
      var a :| Enabled(run[n - 1], a) && run[n] == Step(run[n - 1], a);
      if AdvancedUnflushed(run[n - 1].pc) && (a.CutShort? || (Flushes(a) && !a.ok)) {
        assert FlushLapsesAt(run, n - 1);
      }
    }
  }

  /** At step `i` the id is handed out, and the counter on disk has not passed it then. */
  ghost predicate GivenEarlyAt(run: seq<State>, i: nat, id: nat) {
    i + 1 < |run| && run[i + 1].events == run[i].events + [Given(id)] && run[i + 1].disk.next <= id
  }

  lemma StepExposesIff(s: State, a: Action, id: nat)
    requires Enabled(s, a) && (s.pc.SingleMarked? ==> s.pc.id < s.mem.next)
    ensures id in Step(s, a).exposed <==>
            id in s.exposed || (Step(s, a).events == s.events + [Given(id)] && Step(s, a).disk.next <= id)
  {
    var s' := Step(s, a);
    if |s'.events| > |s.events| {
      assert s'.events[|s.events|] == Given(id) <==> s'.events == s.events + [Given(id)];
    }
  }

  lemma RunExposes(run: seq<State>, i: nat, id: nat)
    requires IsRun(run) && i + 1 < |run| && !run[i].wrapped
    ensures id in run[i + 1].exposed <==> id in run[i].exposed || GivenEarlyAt(run, i, id)
  {
    RunKeepsInv(run, i);
    assert Follows(run[i + 1 - 1], run[i + 1]);
    var a :| Enabled(run[i], a) && run[i + 1] == Step(run[i], a);
    StepExposesIff(run[i], a, id);
  }

  lemma NotWrappedEarlier(run: seq<State>, i: nat)
    requires IsRun(run) && i + 1 < |run| && !run[i + 1].wrapped
    ensures !run[i].wrapped
  {
    assert Follows(run[i + 1 - 1], run[i + 1]);
  }

  /** Until ids wrap, an id counts as exposed if and only if it was handed out while the counter on
      disk had not passed it. */
  lemma {:induction false} ExposedIffGivenEarly(run: seq<State>, n: nat, id: nat)
    requires IsRun(run) && n < |run| && !run[n].wrapped
    ensures id in run[n].exposed <==> exists i: nat :: i < n && GivenEarlyAt(run, i, id)
    decreases n
  {
    if n == 0 {
    } else {
      NotWrappedEarlier(run, n - 1);
      ExposedIffGivenEarly(run, n - 1, id);
      RunExposes(run, n - 1, id);
    }
  }

  /** Where no window is in use and ids do not run out, a pass generates no id that is stored. */
  lemma FreshWindowSparesRows(s: State, m: U32)
    requires Enabled(s, PlanPass(m)) && 1 <= s.pc.wanted <= MAX_PREKEY_ID && !NoRoom(s, s.pc.wanted)
    requires s.mem.first == 0 || s.mem.first > s.mem.next
    ensures var plan := Step(s, PlanPass(m)).pc.plan;
            Range(plan.genStart, plan.genCount) !! s.rows && plan.genCount == s.pc.wanted
  {
    RoomIff(s, m, s.pc.wanted);
    PlanIsMonotone(s.mem.first, s.mem.next, m, s.pc.wanted);
  }
}
