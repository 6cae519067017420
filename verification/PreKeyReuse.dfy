/**
 Which ids can still be generated, exactly: those the counter on disk has not passed. Hence an id
 handed out in a retry receipt is safe from reuse if and only if the counter on disk is past it,
 and a flush that fails or is cut short can hand out one that is not.
 */
module PreKeyReuse {
  import opened PreKeyPlan
  import opened PreKeyProtocol
  import Paths

  ghost function Following(): (State, State) -> bool {
    (s: State, s': State) => Follows(s, s')
  }

  ghost predicate IsPath(path: seq<State>, s: State) {
    Paths.IsPath(path, s, Following())
  }

  ghost predicate GeneratedSince(s: State, s': State, id: nat) {
    exists k :: |s.events| <= k < |s'.events| && s'.events[k].Generated? && id in s'.events[k].ids
  }

  /** Some continuation generates the id before ids wrap. */
  ghost predicate CanGenerate(s: State, id: nat) {
    exists path: seq<State> :: IsPath(path, s) && !path[|path| - 1].wrapped && GeneratedSince(s, path[|path| - 1], id)
  }

  // -- An id the counter on disk has passed is never generated --

  ghost predicate GeneratesAbove(s: State, s': State) {
    && s.events <= s'.events && s.disk.next <= s'.disk.next
    && forall k, id: nat ::
         |s.events| <= k < |s'.events| && s'.events[k].Generated? && id in s'.events[k].ids ==> s.disk.next <= id
  }

  lemma FollowGeneratesAbove(s: State, s': State)
    requires Inv(s) && Follows(s, s') && !s'.wrapped
    ensures GeneratesAbove(s, s')
  {
  }

  lemma AboveIsTransitive(s: State, mid: State, s': State)
    requires GeneratesAbove(s, mid) && GeneratesAbove(mid, s')
    ensures GeneratesAbove(s, s')
  {
  }

  lemma WrapIsForever(s: State, s': State)
    requires Follows(s, s')
    ensures s.wrapped ==> s'.wrapped
  {
  }

  lemma {:induction false} PathKeepsInv(path: seq<State>, s: State, i: nat)
    requires Inv(s) && IsPath(path, s) && i < |path|
    ensures Inv(path[i])
    decreases i
  {
    if i == 0 {
    } else {
      PathKeepsInv(path, s, i - 1);
      assert Follows(path[i - 1], path[i]);
      var a :| Enabled(path[i - 1], a) && path[i] == Step(path[i - 1], a);
      StepKeepsInv(path[i - 1], a);
    }
  }

  lemma {:induction false} PathGeneratesAbove(path: seq<State>, s: State, i: nat)
    requires Inv(s) && IsPath(path, s) && i < |path| && !path[i].wrapped
    ensures GeneratesAbove(s, path[i])
    decreases i
  {
    if i == 0 {
    } else {
      var mid := path[i - 1];
      assert Follows(mid, path[i]);
      WrapIsForever(mid, path[i]);
      PathKeepsInv(path, s, i - 1);
      FollowGeneratesAbove(mid, path[i]);
      PathGeneratesAbove(path, s, i - 1);
      AboveIsTransitive(s, mid, path[i]);
    }
  }

  // -- Any other id can be --

  lemma Extend(path: seq<State>, s: State, s': State) returns (longer: seq<State>)
    requires IsPath(path, s) && Follows(path[|path| - 1], s')
    ensures longer == path + [s'] && IsPath(longer, s)
  {
    longer := Paths.Extended(path, s, s', Following());
  }

  lemma Join(path: seq<State>, s: State, rest: seq<State>) returns (longer: seq<State>)
    requires IsPath(path, s) && IsPath(rest, path[|path| - 1])
    ensures IsPath(longer, s) && longer[|longer| - 1] == rest[|rest| - 1]
  {
    longer := Paths.Joined(path, s, rest, Following());
  }

  /** Every stored row can be consumed. */
  lemma {:induction false} ConsumeAll(s: State) returns (path: seq<State>)
    requires s.pc.Idle?
    ensures IsPath(path, s) && path[|path| - 1] == s.(rows := {})
    decreases s.rows
  {
    if s.rows == {} {
      path := [s];
    } else {
      var id :| id in s.rows;
      assert Enabled(s, Consume(id));
      var s' := Step(s, Consume(id));
      assert Follows(s, s');
      var first := Extend([s], s, s');
      var rest := ConsumeAll(s');
      path := Join(first, s, rest);
    }
  }

  function MintsAt(w: Watermarks): nat {
    Max(w.next, 1)
  }

  /** The plan of a single-key request that finds no stored row. */
  lemma EmptyStorePlan(w: Watermarks)
    requires MintsAt(w) <= MAX_PREKEY_ID
    ensures WrapFree(w.first, w.next, 0, 1)
    ensures var p := PlanPreKeyUpload(w.first, w.next, 0, 1);
            if p.genCount > 0 then p.genStart == p.windowStart == MintsAt(w)
            else p.windowStart + 1 <= w.next == MintsAt(w)
  {
    StartIsFresh(w.next, 0);
    if 0 < w.first <= w.next {
      WindowKeptIffItFits(w.first, w.next, 0, 1);
      FitsMeaning(w.first, 1);
      KeptWindowShape(w.first, w.next, 0, 1);
    } else {
      FreshWindowShape(StartPreKeyId(w.next, 0), 1);
    }
  }

  /** With no stored row, a single-key request mints exactly the counter. */
  lemma EmptyStoreMints(s: State) returns (s1: State, s2: State)
    requires s.pc.Idle? && s.rows == {} && MintsAt(s.mem) <= MAX_PREKEY_ID
    ensures Follows(s, s1) && Follows(s1, s2)
    ensures var id := MintsAt(s.mem);
            s2 == s.(rows := {id}, events := s.events + [Generated({id})], pc := SingleStored(id, Watermarks(id, id + 1)))
  {
    EmptyStorePlan(s.mem);
    assert Enabled(s, BeginSingle(0));
    s1 := Step(s, BeginSingle(0));
    assert LeftoverRows(s1, s1.pc.plan) == {};
    assert Enabled(s1, MintSingle);
    s2 := Step(s1, MintSingle);
  }

  /** A minted key whose flush succeeds, and which is then consumed, moves the counter up by one. */
  lemma FlushAndConsume(s: State) returns (s1: State, s2: State, s3: State)
    requires s.pc.SingleStored? && s.rows == {s.pc.id}
    ensures Follows(s, s1) && Follows(s1, s2) && Follows(s2, s3)
    ensures s3.mem == s.pc.marks && s3.pc.Idle? && s3.rows == {}
    ensures s3.events == s.events + [Given(s.pc.id)] && s3.wrapped == s.wrapped
  {
    assert Enabled(s, MarkSingle);
    s1 := Step(s, MarkSingle);
    assert Enabled(s1, FlushSingle(true));
    s2 := Step(s1, FlushSingle(true));
    assert Enabled(s2, Consume(s.pc.id));
    s3 := Step(s2, Consume(s.pc.id));
  }

  lemma {:induction false} MintUpTo(s: State, id: nat) returns (path: seq<State>)
    requires s.pc.Idle? && s.rows == {} && !s.wrapped
    requires MintsAt(s.mem) <= id <= MAX_PREKEY_ID
    ensures IsPath(path, s) && !path[|path| - 1].wrapped && GeneratedSince(s, path[|path| - 1], id)
    decreases id - MintsAt(s.mem)
  {
    var s1, s2 := EmptyStoreMints(s);
    path := Extend([s], s, s1);
    path := Extend(path, s, s2);
    if MintsAt(s.mem) == id {
      assert s2.events[|s.events|].Generated? && id in s2.events[|s.events|].ids;
    } else {
      var s3, s4, s5 := FlushAndConsume(s2);
      path := Extend(path, s, s3);
      path := Extend(path, s, s4);
      path := Extend(path, s, s5);
      var rest := MintUpTo(s5, id);
      assert GeneratedSince(s5, rest[|rest| - 1], id);
      path := Join(path, s, rest);
    }
  }

  /** After a crash every id from the counter on disk upwards is generated in turn. */
  lemma CrashRemints(s: State, id: nat) returns (path: seq<State>)
    requires !s.wrapped && MintsAt(s.disk) <= id <= MAX_PREKEY_ID
    ensures IsPath(path, s) && !path[|path| - 1].wrapped && GeneratedSince(s, path[|path| - 1], id)
  {
    assert Enabled(s, Crash);
    var s1 := Step(s, Crash);
    assert Follows(s, s1);
    path := Extend([s], s, s1);
    var consume := ConsumeAll(s1);
    path := Join(path, s, consume);
    var mint := MintUpTo(s1.(rows := {}), id);
    path := Join(path, s, mint);
  }

  /** In every reachable state, an id can be generated (again) in some continuation, before ids
      wrap, if and only if the counter on disk has not passed it. */
  lemma GenerableIffNotPassed(run: seq<State>, i: nat, id: nat)
    requires IsRun(run) && i < |run| && !run[i].wrapped && 1 <= id <= MAX_PREKEY_ID
    ensures CanGenerate(run[i], id) <==> run[i].disk.next <= id
  {
    var s := run[i];
    RunKeepsInv(run, i);
    if CanGenerate(s, id) {
      var path: seq<State> :| IsPath(path, s) && !path[|path| - 1].wrapped && GeneratedSince(s, path[|path| - 1], id);
      PathGeneratesAbove(path, s, |path| - 1);
    }
    if s.disk.next <= id {
      var path := CrashRemints(s, id);
    }
  }

  // -- A handed-out id the counter on disk has not passed --

  /** The flush after a mint fails, or the request is cut short before it. */
  lemma FlushLapses(s: State, cut: bool) returns (s1: State, s2: State)
    requires s.pc.SingleStored?
    ensures Follows(s, s1) && Follows(s1, s2)
    ensures s2 == s.(mem := s.pc.marks, pc := Idle, lapsed := true)
  {
    assert Enabled(s, MarkSingle);
    s1 := Step(s, MarkSingle);
    assert Enabled(s1, FlushSingle(false)) && Enabled(s1, CutShort);
    s2 := Step(s1, if cut then CutShort else FlushSingle(false));
  }

  /** The next request finds the stored key in the window and hands it out. */
  lemma ReuseUnflushed(s: State) returns (s1: State, s2: State)
    requires s.mem == Watermarks(5, 6) && s.rows == {5} && s.pc.Idle?
    ensures Follows(s, s1) && Follows(s1, s2)
    ensures s2.events == s.events + [Given(5)] && s2.disk == s.disk && s2.wrapped == s.wrapped
  {
    KeptWindowShape(5, 6, 5, 1);
    assert IsMax(s.rows, 5) && Enabled(s, BeginSingle(5));
    s1 := Step(s, BeginSingle(5));
    assert LeftoverRows(s1, s1.pc.plan) == {5};
    assert Enabled(s1, ReuseSingle(5, true));
    s2 := Step(s1, ReuseSingle(5, true));
  }

  /** The no-reuse claim for retry receipts fails when a flush fails or is cut short: id 5 is
      minted, the counter on disk stays at 5, the next request hands the stored key out, and from
      there a crash leads to 5 being generated over the key a peer may hold. */
  lemma LapsedFlushExposesGivenId(cut: bool) returns (run: seq<State>)
    ensures IsRun(run) && !run[|run| - 1].wrapped
    ensures Given(5) in run[|run| - 1].events && CanGenerate(run[|run| - 1], 5)
  {
    var s0 := State(Watermarks(5, 5), Watermarks(5, 5), {}, Watermarks(5, 5), Idle, [], false, false, {});
    var s1, s2 := EmptyStoreMints(s0);
    var s3, s4 := FlushLapses(s2, cut);
    var s5, s6 := ReuseUnflushed(s4);
    run := Extend([s0], s0, s1);
    run := Extend(run, s0, s2);
    run := Extend(run, s0, s3);
    run := Extend(run, s0, s4);
    run := Extend(run, s0, s5);
    run := Extend(run, s0, s6);
    assert IsRun(run);
    GenerableIffNotPassed(run, |run| - 1, 5);
  }
}
