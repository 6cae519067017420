/**
 The reference cache: a list of slots in insertion order. It has no index, no sequence
 numbers and no eviction loop; the portable cache is proved to behave exactly like it.
 */
module FifoList {
  import opened Options

  datatype Slot<K, V> = Slot(key: K, value: V, insertedAt: nat, lastAccessedAt: nat)

  /** Capacity and expiry settings; instants and durations in one unit. */
  datatype Config = Config(maxCapacity: Option<nat>, ttl: Option<nat>, tti: Option<nat>)

  function Elapsed(now: nat, since: nat): nat {
    if now >= since then now - since else 0
  }

  predicate Expired<K, V>(c: Config, slot: Slot<K, V>, now: nat) {
    || (c.ttl.Some? && Elapsed(now, slot.insertedAt) >= c.ttl.value)
    || (c.tti.Some? && Elapsed(now, slot.lastAccessedAt) >= c.tti.value)
  }

  // -- List operations --

  function Keep<K, V>(l: seq<Slot<K, V>>, p: Slot<K, V> -> bool): seq<Slot<K, V>> {
    if l == [] then []
    else Keep(l[..|l| - 1], p) + (if p(l[|l| - 1]) then [l[|l| - 1]] else [])
  }

  function Without<K(==), V>(l: seq<Slot<K, V>>, k: K): seq<Slot<K, V>> {
    Keep(l, (slot: Slot<K, V>) => slot.key != k)
  }

  /** Replaces the slot with the key of `slot` where it stands. */
  function Refresh<K(==), V>(l: seq<Slot<K, V>>, slot: Slot<K, V>): seq<Slot<K, V>> {
    seq(|l|, i requires 0 <= i < |l| => if l[i].key == slot.key then slot else l[i])
  }

  predicate HasKey<K(==), V>(l: seq<Slot<K, V>>, k: K) {
    exists i :: 0 <= i < |l| && l[i].key == k
  }

  function Find<K(==), V>(l: seq<Slot<K, V>>, k: K): Option<Slot<K, V>> {
    if l == [] then None
    else if l[|l| - 1].key == k then Some(l[|l| - 1])
    else Find(l[..|l| - 1], k)
  }

  /** Drops just enough of the oldest slots to leave room for one more. */
  function MakeRoom<K, V>(l: seq<Slot<K, V>>, cap: Option<nat>): seq<Slot<K, V>> {
    if cap.None? || |l| < cap.value then l
    else if cap.value == 0 then []
    else l[|l| - (cap.value - 1)..]
  }

  ghost predicate DistinctKeys<K, V>(l: seq<Slot<K, V>>) {
    forall i, j :: 0 <= i < j < |l| ==> l[i].key != l[j].key
  }

  ghost predicate WithinCapacity<K, V>(c: Config, l: seq<Slot<K, V>>) {
    c.maxCapacity.Some? ==> |l| <= c.maxCapacity.value
  }

  // -- The cache operations --

  datatype Op<K, V> =
    | Insert(key: K, value: V, now: nat)
    | Get(key: K, now: nat)
    | Remove(key: K, now: nat)
    | Invalidate(key: K)
    | Clear
    | Sweep(now: nat)
    | DropExpired(key: K, now: nat)

  function Apply<K(==), V>(c: Config, l: seq<Slot<K, V>>, op: Op<K, V>): seq<Slot<K, V>> {
    match op
    case Insert(k, v, now) =>
      var slot := Slot(k, v, now, now);
      if Find(l, k).Some? then Refresh(l, slot)
      else if c.maxCapacity == Some(0) then l
      else MakeRoom(l, c.maxCapacity) + [slot]
    case Get(k, now) =>
      var found := Find(l, k);
      if found.None? then l
      else if Expired(c, found.value, now) then Without(l, k)
      else if c.tti.Some? then Refresh(l, found.value.(lastAccessedAt := now))
      else l
    case Remove(k, _) => Without(l, k)
    case Invalidate(k) => Without(l, k)
    case Clear => []
    case Sweep(now) => Keep(l, (slot: Slot<K, V>) => !Expired(c, slot, now))
    case DropExpired(k, now) =>
      var found := Find(l, k);
      if found.Some? && Expired(c, found.value, now) then Without(l, k) else l
  }

  /** What the caller gets back: an unexpired value for `Get` and `Remove`. */
  function Answer<K(==), V>(c: Config, l: seq<Slot<K, V>>, op: Op<K, V>): Option<V> {
    if op.Get? || op.Remove? then
      var found := Find(l, op.key);
      if found.Some? && !Expired(c, found.value, op.now) then Some(found.value.value) else None
    else None
  }

  function ApplyAll<K(==), V>(c: Config, l: seq<Slot<K, V>>, ops: seq<Op<K, V>>): seq<Slot<K, V>> {
    if ops == [] then l else Apply(c, ApplyAll(c, l, ops[..|ops| - 1]), ops[|ops| - 1])
  }

  function Answers<K(==), V>(c: Config, l: seq<Slot<K, V>>, ops: seq<Op<K, V>>): seq<Option<V>> {
    if ops == [] then []
    else Answers(c, l, ops[..|ops| - 1]) + [Answer(c, ApplyAll(c, l, ops[..|ops| - 1]), ops[|ops| - 1])]
  }

  // -- Facts about the list operations --

  /** `at` lists, in increasing order, where the slots of `part` stand in `l`. */
  ghost predicate Picks<K, V>(l: seq<Slot<K, V>>, part: seq<Slot<K, V>>, at: seq<nat>) {
    && |at| == |part| <= |l|
    && (forall i :: 0 <= i < |at| ==> at[i] < |l| && part[i] == l[at[i]])
    && (forall i, j :: 0 <= i < j < |at| ==> at[i] < at[j])
  }

  lemma PicksLonger<K, V>(l: seq<Slot<K, V>>, part: seq<Slot<K, V>>, at: seq<nat>)
    requires l != [] && Picks(l[..|l| - 1], part, at)
    ensures Picks(l, part, at)
    ensures Picks(l, part + [l[|l| - 1]], at + [|l| - 1])
  {
  }

  lemma {:induction false} KeepIsSubsequence<K, V>(l: seq<Slot<K, V>>, p: Slot<K, V> -> bool) returns (at: seq<nat>)
    ensures Picks(l, Keep(l, p), at)
    decreases |l|
  {
    if l == [] {
      at := [];
    } else {
      var n := |l| - 1;
      var front := KeepIsSubsequence(l[..n], p);
      PicksLonger(l, Keep(l[..n], p), front);
      at := if p(l[n]) then front + [n] else front;
    }
  }

  lemma {:induction false} FindMeaning<K, V>(l: seq<Slot<K, V>>, k: K)
    ensures Find(l, k).Some? <==> HasKey(l, k)
    ensures Find(l, k).Some? ==> Find(l, k).value in l && Find(l, k).value.key == k
    decreases |l|
  {
    if l == [] {
    } else {
      var n := |l| - 1;
      FindMeaning(l[..n], k);
      if i :| 0 <= i < |l| && l[i].key == k && i < n {
        assert l[..n][i].key == k;
      }
      if l[n].key == k {
        assert HasKey(l, k);
      } else if j :| 0 <= j < n && l[..n][j].key == k {
        assert l[j].key == k;
      }
    }
  }

  lemma {:induction false} KeepAll<K, V>(l: seq<Slot<K, V>>, p: Slot<K, V> -> bool)
    requires forall i :: 0 <= i < |l| ==> p(l[i])
    ensures Keep(l, p) == l
    decreases |l|
  {
    if l == [] {
    } else {
      KeepAll(l[..|l| - 1], p);
    }
  }

  /** Dropping the key of the head drops exactly the head. */
  lemma {:induction false} WithoutHead<K, V>(l: seq<Slot<K, V>>)
    requires l != [] && DistinctKeys(l)
    ensures Without(l, l[0].key) == l[1..]
    decreases |l|
  {
    var n := |l| - 1;
    if n > 0 {
      WithoutHead(l[..n]);
      assert l[..n][0] == l[0];
      assert l[1..] == l[..n][1..] + [l[n]];
    } else {
      assert Keep(l[..0], (slot: Slot<K, V>) => slot.key != l[0].key) == [];
    }
  }

  /** Every operation keeps the keys distinct and the size within the capacity. */
  lemma ApplyKeepsShape<K, V>(c: Config, l: seq<Slot<K, V>>, op: Op<K, V>)
    requires DistinctKeys(l) && WithinCapacity(c, l)
    ensures DistinctKeys(Apply(c, l, op)) && WithinCapacity(c, Apply(c, l, op))
  {
    match op
    case Insert(k, v, now) => FindMeaning(l, k);
    case Get(k, now) =>
      FindMeaning(l, k);
      var _ := KeepIsSubsequence(l, (slot: Slot<K, V>) => slot.key != k);
    case Remove(k, _) => var _ := KeepIsSubsequence(l, (slot: Slot<K, V>) => slot.key != k);
    case Invalidate(k) => var _ := KeepIsSubsequence(l, (slot: Slot<K, V>) => slot.key != k);
    case Clear =>
    case Sweep(now) => var _ := KeepIsSubsequence(l, (slot: Slot<K, V>) => !Expired(c, slot, now));
    case DropExpired(k, _) => var _ := KeepIsSubsequence(l, (slot: Slot<K, V>) => slot.key != k);
  }

  lemma {:induction false} RunKeepsShape<K, V>(c: Config, ops: seq<Op<K, V>>)
    ensures DistinctKeys(ApplyAll(c, [], ops)) && WithinCapacity(c, ApplyAll(c, [], ops))
    decreases |ops|
  {
    if ops == [] {
    } else {
      RunKeepsShape(c, ops[..|ops| - 1]);
      ApplyKeepsShape(c, ApplyAll(c, [], ops[..|ops| - 1]), ops[|ops| - 1]);
    }
  }

  // -- What FIFO order means --

  /** When the current stay of `k` in the cache began: the position of the insert that found it
      absent. Updates and reads do not restart a stay; removal or expiry ends it. */
  ghost function StayBegan<K, V>(c: Config, ops: seq<Op<K, V>>, k: K): nat
    requires HasKey(ApplyAll(c, [], ops), k)
    decreases |ops|
  {
    var before := ops[..|ops| - 1];
    if HasKey(ApplyAll(c, [], before), k) then StayBegan(c, before, k) else |ops| - 1
  }

  lemma {:induction false} StayBeganEarlier<K, V>(c: Config, ops: seq<Op<K, V>>, k: K)
    requires HasKey(ApplyAll(c, [], ops), k)
    ensures StayBegan(c, ops, k) < |ops|
    decreases |ops|
  {
    if HasKey(ApplyAll(c, [], ops[..|ops| - 1]), k) {
      StayBeganEarlier(c, ops[..|ops| - 1], k);
    }
  }

  ghost predicate OrderedByStay<K, V>(c: Config, ops: seq<Op<K, V>>) {
    var l := ApplyAll(c, [], ops);
    forall i, j :: 0 <= i < j < |l| ==>
      (assert HasKey(l, l[i].key) && HasKey(l, l[j].key);
       StayBegan(c, ops, l[i].key) < StayBegan(c, ops, l[j].key))
  }

  /** The slots of `l'`, but for one that joined at the back, have the keys of the slots of `l` at the
      places `at`, in order. */
  ghost predicate InOrder<K, V>(l: seq<Slot<K, V>>, l': seq<Slot<K, V>>, at: seq<nat>, joined: bool) {
    && |l'| == |at| + (if joined then 1 else 0)
    && (forall i :: 0 <= i < |at| ==> at[i] < |l| && l'[i].key == l[at[i]].key)
    && (forall i, j :: 0 <= i < j < |at| ==> at[i] < at[j])
  }

  lemma KeepInOrder<K, V>(l: seq<Slot<K, V>>, p: Slot<K, V> -> bool) returns (at: seq<nat>)
    ensures InOrder(l, Keep(l, p), at, false)
  {
    at := KeepIsSubsequence(l, p);
  }

  lemma SameInOrder<K, V>(l: seq<Slot<K, V>>, l': seq<Slot<K, V>>) returns (at: seq<nat>)
    requires |l'| == |l| && forall i :: 0 <= i < |l| ==> l'[i].key == l[i].key
    ensures InOrder(l, l', at, false)
  {
    at := seq(|l|, i => i);
  }

  lemma JoinedInOrder<K, V>(l: seq<Slot<K, V>>, cap: Option<nat>, slot: Slot<K, V>) returns (at: seq<nat>)
    ensures InOrder(l, MakeRoom(l, cap) + [slot], at, true)
  {
    var gone := |l| - |MakeRoom(l, cap)|;
    at := seq(|l| - gone, i => i + gone);
  }

  /** Every operation leaves the surviving keys in their order; at most one key, absent before,
      joins at the back. */
  lemma ApplyKeepsOrder<K, V>(c: Config, l: seq<Slot<K, V>>, op: Op<K, V>) returns (at: seq<nat>, joined: bool)
    requires DistinctKeys(l)
    ensures InOrder(l, Apply(c, l, op), at, joined)
    ensures joined ==> op.Insert? && Apply(c, l, op)[|at|].key == op.key && !HasKey(l, op.key)
  {
    joined := false;
    match op
    case Insert(k, v, now) =>
      FindMeaning(l, k);
      if Find(l, k).Some? || c.maxCapacity == Some(0) {
        at := SameInOrder(l, Apply(c, l, op));
      } else {
        at := JoinedInOrder(l, c.maxCapacity, Slot(k, v, now, now));
        joined := true;
      }
    case Get(k, now) =>
      FindMeaning(l, k);
      if Find(l, k).Some? && Expired(c, Find(l, k).value, now) {
        at := KeepInOrder(l, (slot: Slot<K, V>) => slot.key != k);
      } else {
        at := SameInOrder(l, Apply(c, l, op));
      }
    case Remove(k, _) => at := KeepInOrder(l, (slot: Slot<K, V>) => slot.key != k);
    case Invalidate(k) => at := KeepInOrder(l, (slot: Slot<K, V>) => slot.key != k);
    case Clear => at := [];
    case Sweep(now) => at := KeepInOrder(l, (slot: Slot<K, V>) => !Expired(c, slot, now));
    case DropExpired(k, now) =>
      if Find(l, k).Some? && Expired(c, Find(l, k).value, now) {
        at := KeepInOrder(l, (slot: Slot<K, V>) => slot.key != k);
      } else {
        at := SameInOrder(l, l);
      }
  }

  lemma StayContinues<K, V>(c: Config, ops: seq<Op<K, V>>, k: K)
    requires ops != [] && HasKey(ApplyAll(c, [], ops), k) && HasKey(ApplyAll(c, [], ops[..|ops| - 1]), k)
    ensures StayBegan(c, ops, k) == StayBegan(c, ops[..|ops| - 1], k) < |ops| - 1
  {
  }

  lemma HasKeyAt<K, V>(l: seq<Slot<K, V>>, i: nat)
    requires i < |l|
    ensures HasKey(l, l[i].key)
  {
  }

  lemma StaysOrdered<K, V>(c: Config, ops: seq<Op<K, V>>, a: nat, b: nat)
    requires OrderedByStay(c, ops) && a < b < |ApplyAll(c, [], ops)|
    ensures var l := ApplyAll(c, [], ops);
            && HasKey(l, l[a].key) && HasKey(l, l[b].key)
            && StayBegan(c, ops, l[a].key) < StayBegan(c, ops, l[b].key)
  {
  }

  /** Slot `i` stood at `from` before the last operation; slot `j` stood later, or just joined. */
  lemma SurvivorsStayOrdered<K, V>(c: Config, ops: seq<Op<K, V>>, later: Option<nat>, from: nat, i: nat, j: nat)
    requires ops != [] && OrderedByStay(c, ops[..|ops| - 1])
    requires var l, l' := ApplyAll(c, [], ops[..|ops| - 1]), ApplyAll(c, [], ops);
             && i < j < |l'| && from < |l| && l'[i].key == l[from].key
             && match later
                case Some(n) => from < n < |l| && l'[j].key == l[n].key
                case None => !HasKey(l, l'[j].key)
    ensures var l' := ApplyAll(c, [], ops);
            && HasKey(l', l'[i].key) && HasKey(l', l'[j].key)
            && StayBegan(c, ops, l'[i].key) < StayBegan(c, ops, l'[j].key)
  {
    var l, l' := ApplyAll(c, [], ops[..|ops| - 1]), ApplyAll(c, [], ops);
    HasKeyAt(l', i);
    HasKeyAt(l', j);
    HasKeyAt(l, from);
    StayContinues(c, ops, l'[i].key);
    if later.Some? {
      HasKeyAt(l, later.value);
      StayContinues(c, ops, l'[j].key);
      StaysOrdered(c, ops[..|ops| - 1], from, later.value);
    }
  }

  /** Over every run, the list is ordered by when each key's current stay began. */
  lemma {:induction false} RunIsOrderedByStay<K, V>(c: Config, ops: seq<Op<K, V>>)
    ensures OrderedByStay(c, ops)
    decreases |ops|
  {
    if ops == [] {
    } else {
      var before := ops[..|ops| - 1];
      var l, l' := ApplyAll(c, [], before), ApplyAll(c, [], ops);
      RunIsOrderedByStay(c, before);
      RunKeepsShape(c, before);
      var at, joined := ApplyKeepsOrder(c, l, ops[|ops| - 1]);
      forall i, j | 0 <= i < j < |l'|
        ensures HasKey(l', l'[i].key) && HasKey(l', l'[j].key)
        ensures StayBegan(c, ops, l'[i].key) < StayBegan(c, ops, l'[j].key)
      {
        SurvivorsStayOrdered(c, ops, if j < |at| then Some(at[j]) else None, at[i], i, j);
      }
    }
  }

  /** How much an insert evicts. A key that is there is refreshed where it stands. For a new one,
      with a positive capacity, nothing is evicted while there is room, and exactly the oldest when
      there is none, so that the size grows by one up to the capacity; capacity 0 holds nothing, and
      without a bound nothing is ever evicted. */
  lemma InsertEvictsOldestIffFull<K, V>(c: Config, l: seq<Slot<K, V>>, op: Op<K, V>)
    requires op.Insert? && DistinctKeys(l) && WithinCapacity(c, l)
    ensures var l', slot := Apply(c, l, op), Slot(op.key, op.value, op.now, op.now);
            if HasKey(l, op.key) then
              |l'| == |l| && forall i :: 0 <= i < |l| ==> l'[i] == if l[i].key == op.key then slot else l[i]
            else match c.maxCapacity
              case None => l' == l + [slot]
              case Some(cap) =>
                && (cap == 0 ==> l' == [])
                && (|l| < cap ==> l' == l + [slot])
                && (0 < cap == |l| ==> l' == l[1..] + [slot])
  {
    FindMeaning(l, op.key);
  }

  /** Making room removes a front part of the list. */
  lemma InsertEvictsFront<K, V>(c: Config, l: seq<Slot<K, V>>, op: Op<K, V>, i: nat, j: nat)
    requires op.Insert? && DistinctKeys(l) && i < |l| && j < |l|
    requires !HasKey(Apply(c, l, op), l[i].key) && HasKey(Apply(c, l, op), l[j].key)
    ensures i < j
  {
    FindMeaning(l, op.key);
    if Find(l, op.key).Some? || c.maxCapacity == Some(0) {
      HasKeyAt(Apply(c, l, op), i);
    } else {
      RoomIsMadeAtFront(l, c.maxCapacity, Slot(op.key, op.value, op.now, op.now), i, j);
    }
  }

  lemma RoomIsMadeAtFront<K, V>(l: seq<Slot<K, V>>, cap: Option<nat>, slot: Slot<K, V>, i: nat, j: nat)
    requires DistinctKeys(l) && !HasKey(l, slot.key) && i < |l| && j < |l|
    requires !HasKey(MakeRoom(l, cap) + [slot], l[i].key) && HasKey(MakeRoom(l, cap) + [slot], l[j].key)
    ensures i < j
  {
    var l', out := MakeRoom(l, cap) + [slot], |l| - |MakeRoom(l, cap)|;
    assert forall m :: 0 <= m < |l'| - 1 ==> l'[m] == l[m + out];
    if i >= out {
      HasKeyAt(l', i - out);
    }
    HasKeyAt(l, j);
    var m :| 0 <= m < |l'| && l'[m].key == l[j].key;
    assert m < |l'| - 1;
  }

  /** FIFO eviction: an insert that makes room for a new key throws out only keys whose stay
      began before that of every key it leaves. */
  lemma EvictionIsFifo<K, V>(c: Config, before: seq<Op<K, V>>, op: Op<K, V>, gone: K, kept: K)
    requires op.Insert?
    requires HasKey(ApplyAll(c, [], before), gone) && !HasKey(Apply(c, ApplyAll(c, [], before), op), gone)
    requires HasKey(ApplyAll(c, [], before), kept) && HasKey(Apply(c, ApplyAll(c, [], before), op), kept)
    ensures StayBegan(c, before, gone) < StayBegan(c, before, kept)
  {
    var l := ApplyAll(c, [], before);
    RunIsOrderedByStay(c, before);
    RunKeepsShape(c, before);
    var i :| 0 <= i < |l| && l[i].key == gone;
    var j :| 0 <= j < |l| && l[j].key == kept;
    InsertEvictsFront(c, l, op, i, j);
    StaysOrdered(c, before, i, j);
  }
}
