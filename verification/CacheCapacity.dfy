/**
 How long a key stays in a bounded cache, in terms of the operations so far: until as many further
 stays have begun as the cache has places. A stay begins with an insert that finds its key absent.
 */
module CacheCapacity {
  import opened CacheHistory
  import opened FifoList
  import opened Options

  function After<K(==), V>(c: Config, ops: seq<Op<K, V>>): seq<Slot<K, V>> {
    ApplyAll(c, [], ops)
  }

  /** Operation `i` inserts a key that is absent. */
  predicate Begins<K(==), V>(c: Config, ops: seq<Op<K, V>>, i: nat)
    requires i < |ops|
  {
    ops[i].Insert? && !HasKey(After(c, ops[..i]), ops[i].key)
  }

  /** How many stays have begun after operation `j`. */
  function BegunAfter<K(==), V>(c: Config, ops: seq<Op<K, V>>, j: nat): nat
    requires j < |ops|
    decreases |ops|
  {
    if |ops| == j + 1 then 0
    else BegunAfter(c, ops[..|ops| - 1], j) + (if Begins(c, ops, |ops| - 1) then 1 else 0)
  }

  /** The operation removes the key, or finds it expired and drops it. */
  predicate Ends<K(==), V>(c: Config, l: seq<Slot<K, V>>, op: Op<K, V>, k: K) {
    match op
    case Insert(_, _, _) => false
    case Get(k2, now) => k2 == k && Find(l, k).Some? && Expired(c, Find(l, k).value, now)
    case DropExpired(k2, now) => k2 == k && Find(l, k).Some? && Expired(c, Find(l, k).value, now)
    case Sweep(now) => Find(l, k).Some? && Expired(c, Find(l, k).value, now)
    case Remove(k2, _) => k2 == k
    case Invalidate(k2) => k2 == k
    case Clear => true
  }

  predicate EndsAt<K(==), V>(c: Config, ops: seq<Op<K, V>>, k: K, i: nat)
    requires i < |ops|
  {
    Ends(c, After(c, ops[..i]), ops[i], k)
  }

  /** The key's stay began at `j`, and no operation since has removed it or found it expired. */
  ghost predicate StaysSince<K, V>(c: Config, ops: seq<Op<K, V>>, k: K, j: nat) {
    && j < |ops| && Begins(c, ops, j) && ops[j].key == k
    && forall i :: j < i < |ops| ==> !EndsAt(c, ops, k, i)
  }

  lemma StaysBefore<K, V>(c: Config, ops: seq<Op<K, V>>, k: K, j: nat)
    requires StaysSince(c, ops, k, j) && j + 1 < |ops|
    ensures StaysSince(c, ops[..|ops| - 1], k, j)
  {
    var before := ops[..|ops| - 1];
    assert forall i: nat :: i < |before| ==> before[..i] == ops[..i];
    forall i | j < i < |before|
      ensures !EndsAt(c, before, k, i)
    {
      assert !EndsAt(c, ops, k, i);
    }
  }

  // -- One operation --

  lemma FindIn<K, V>(l: seq<Slot<K, V>>, i: nat)
    requires DistinctKeys(l) && i < |l|
    ensures Find(l, l[i].key) == Some(l[i])
  {
    FindMeaning(l, l[i].key);
    assert HasKey(l, l[i].key);
    var j :| 0 <= j < |l| && l[j] == Find(l, l[i].key).value;
  }

  /** What an insert does not evict and nothing ends stays. */
  lemma KeyStays<K, V>(c: Config, l: seq<Slot<K, V>>, op: Op<K, V>, k: K, pos: nat)
    requires DistinctKeys(l) && WithinCapacity(c, l) && pos < |l| && l[pos].key == k && !Ends(c, l, op, k)
    requires op.Insert? && !HasKey(l, op.key) && c.maxCapacity == Some(|l|) ==> 0 < pos
    ensures HasKey(Apply(c, l, op), k)
  {
    var l', slot := Apply(c, l, op), l[pos];
    FindIn(l, pos);
    match op
    case Insert(k2, _, _) =>
      InsertEvictsOldestIffFull(c, l, op);
      FindMeaning(l, k2);
      if HasKey(l, k2) {
        assert l'[pos].key == k;
      } else if c.maxCapacity == Some(|l|) {
        assert l'[pos - 1].key == k;
      } else {
        assert l'[pos].key == k;
      }
    case Get(k2, now) =>
      FindMeaning(l, k2);
      KeepMembers(l, (s: Slot<K, V>) => s.key != k2, slot);
      assert slot in l' || l'[pos].key == k;
    case DropExpired(k2, _) =>
      KeepMembers(l, (s: Slot<K, V>) => s.key != k2, slot);
      assert slot in l';
    case Sweep(now) =>
      KeepMembers(l, (s: Slot<K, V>) => !Expired(c, s, now), slot);
      assert slot in l';
    case Remove(k2, _) =>
      KeepMembers(l, (s: Slot<K, V>) => s.key != k2, slot);
      assert slot in l';
    case Invalidate(k2) =>
      KeepMembers(l, (s: Slot<K, V>) => s.key != k2, slot);
      assert slot in l';
  }

  lemma {:induction false} WithoutDrops<K, V>(l: seq<Slot<K, V>>, k: K)
    ensures !HasKey(Without(l, k), k)
    decreases |l|
  {
    forall i | 0 <= i < |Without(l, k)|
      ensures Without(l, k)[i].key != k
    {
      KeepMembers(l, (s: Slot<K, V>) => s.key != k, Without(l, k)[i]);
    }
  }

  /** Apart from inserts, a key is there after an operation if and only if it was there before and the
      operation does not end its stay: by removing it, or by looking at it when it has expired. */
  lemma StaysIffNotEnded<K, V>(c: Config, l: seq<Slot<K, V>>, op: Op<K, V>, k: K)
    requires DistinctKeys(l) && WithinCapacity(c, l) && !op.Insert?
    ensures HasKey(Apply(c, l, op), k) <==> HasKey(l, k) && !Ends(c, l, op, k)
  {
    if HasKey(l, k) && !Ends(c, l, op, k) {
      var pos :| 0 <= pos < |l| && l[pos].key == k;
      KeyStays(c, l, op, k, pos);
    }
    if HasKey(Apply(c, l, op), k) {
      var at, joined := ApplyKeepsOrder(c, l, op);
      var i :| 0 <= i < |Apply(c, l, op)| && Apply(c, l, op)[i].key == k;
      assert l[at[i]].key == k;
    }
    if HasKey(l, k) && Ends(c, l, op, k) {
      WithoutDrops(l, k);
      if op.Sweep? {
        SweptIsLive(c, l, op.now, k);
      }
    }
  }

  lemma SweptIsLive<K, V>(c: Config, l: seq<Slot<K, V>>, now: nat, k: K)
    requires DistinctKeys(l) && Find(l, k).Some? && Expired(c, Find(l, k).value, now)
    ensures !HasKey(Apply(c, l, Op<K, V>.Sweep(now)), k)
  {
    var l' := Apply(c, l, Op<K, V>.Sweep(now));
    forall i | 0 <= i < |l'|
      ensures l'[i].key != k
    {
      KeepMembers(l, (s: Slot<K, V>) => !Expired(c, s, now), l'[i]);
      var pos :| 0 <= pos < |l| && l[pos] == l'[i];
      FindIn(l, pos);
    }
  }

  lemma {:induction false} GapsAddUp(at: seq<nat>, i: nat, j: nat)
    requires forall a, b :: 0 <= a < b < |at| ==> at[a] < at[b]
    requires i <= j < |at|
    ensures at[j] - at[i] >= j - i
    decreases j
  {
    if i == j {
    } else {
      GapsAddUp(at, i, j - 1);
    }
  }

  /** Behind a key that stays there is at most one key more, and only if the operation begins a stay. */
  lemma BehindGrows<K, V>(c: Config, l: seq<Slot<K, V>>, op: Op<K, V>, k: K, pos: nat) returns (pos': nat)
    requires DistinctKeys(l) && pos < |l| && l[pos].key == k && HasKey(Apply(c, l, op), k)
    ensures pos' < |Apply(c, l, op)| && Apply(c, l, op)[pos'].key == k
    ensures |Apply(c, l, op)| - pos' <= |l| - pos + (if op.Insert? && !HasKey(l, op.key) then 1 else 0)
  {
    var l' := Apply(c, l, op);
    var at, joined := ApplyKeepsOrder(c, l, op);
    pos' :| pos' < |l'| && l'[pos'].key == k;
    assert HasKey(l, k);
    assert pos' < |at|;
    assert at[pos'] == pos;
    GapsAddUp(at, pos', |at| - 1);
  }

  // -- Whole runs --

  /** Behind a key stand at most the keys whose stay began after its own. */
  lemma {:induction false} RecentStays<K, V>(c: Config, ops: seq<Op<K, V>>, k: K, j: nat) returns (pos: nat)
    requires StaysSince(c, ops, k, j) && c.maxCapacity.Some? && BegunAfter(c, ops, j) < c.maxCapacity.value
    ensures pos < |After(c, ops)| && After(c, ops)[pos].key == k
    ensures |After(c, ops)| - pos <= BegunAfter(c, ops, j) + 1
    decreases |ops|
  {
    var n := |ops| - 1;
    var l, op := After(c, ops[..n]), ops[n];
    RunKeepsShape(c, ops[..n]);
    if j == n {
      InsertEvictsOldestIffFull(c, l, op);
      pos := |After(c, ops)| - 1;
    } else {
      StaysBefore(c, ops, k, j);
      assert !EndsAt(c, ops, k, n);
      var before := RecentStays(c, ops[..n], k, j);
      KeyStays(c, l, op, k, before);
      pos := BehindGrows(c, l, op, k, before);
    }
  }

  /** The latest insert or, where idle time counts, read of the key. */
  predicate LastTouch<K(==), V>(c: Config, ops: seq<Op<K, V>>, k: K, t: nat) {
    && t < |ops| && Touches(c, ops[t], k)
    && forall i :: t < i < |ops| ==> !Touches(c, ops[i], k)
  }

  predicate Touches<K(==), V>(c: Config, op: Op<K, V>, k: K) {
    (op.Insert? || (op.Get? && c.tti.Some?)) && op.key == k
  }

  /** A slot was touched by the operation, at its time, or the operation left its time alone. */
  lemma TouchComesFrom<K, V>(c: Config, l: seq<Slot<K, V>>, op: Op<K, V>, slot: Slot<K, V>) returns (before: Slot<K, V>)
    requires DistinctKeys(l) && slot in Apply(c, l, op)
    ensures if Touches(c, op, slot.key) then slot.lastAccessedAt == op.now
            else before in l && before.key == slot.key && before.lastAccessedAt == slot.lastAccessedAt
  {
    before := slot;
    match op
    case Insert(k, _, _) => FindMeaning(l, k);
    case Get(k, _) =>
      FindMeaning(l, k);
      KeepMembers(l, (s: Slot<K, V>) => s.key != k, slot);
    case Remove(k, _) => KeepMembers(l, (s: Slot<K, V>) => s.key != k, slot);
    case Invalidate(k) => KeepMembers(l, (s: Slot<K, V>) => s.key != k, slot);
    case Sweep(now) => KeepMembers(l, (s: Slot<K, V>) => !Expired(c, s, now), slot);
    case DropExpired(k, _) => KeepMembers(l, (s: Slot<K, V>) => s.key != k, slot);
    case Clear =>
  }

  lemma {:induction false} EntryIsLastTouched<K, V>(c: Config, ops: seq<Op<K, V>>, slot: Slot<K, V>) returns (t: nat)
    requires slot in After(c, ops)
    ensures LastTouch(c, ops, slot.key, t) && slot.lastAccessedAt == ops[t].now
    decreases |ops|
  {
    var n := |ops| - 1;
    RunKeepsShape(c, ops[..n]);
    var before := TouchComesFrom(c, After(c, ops[..n]), ops[n], slot);
    if Touches(c, ops[n], slot.key) {
      t := n;
    } else {
      t := EntryIsLastTouched(c, ops[..n], before);
    }
  }

  /** A read or removal of a key that is held answers with its latest insert, exactly before that
      insert's time to live is over and before the time to idle since its last touch is. */
  lemma HeldIsAnswered<K, V>(c: Config, ops: seq<Op<K, V>>, k: K, op: Op<K, V>) returns (i: nat, t: nat)
    requires HasKey(After(c, ops), k) && (op.Get? || op.Remove?) && op.key == k
    ensures Latest(ops, k, i) && LastTouch(c, ops, k, t)
    ensures Answer(c, After(c, ops), op) ==
            if (c.ttl.Some? && Elapsed(op.now, ops[i].now) >= c.ttl.value) ||
               (c.tti.Some? && Elapsed(op.now, ops[t].now) >= c.tti.value)
            then None else Some(ops[i].value)
  {
    var l := After(c, ops);
    FindMeaning(l, k);
    i := EntryIsLatestInsert(c, ops, Find(l, k).value);
    t := EntryIsLastTouched(c, ops, Find(l, k).value);
  }

  /** A bounded cache forgets no key early: while fewer stays than it has places have begun after the
      key's own, and nothing removed it or found it expired, the key is held. */
  lemma RecentIsHeld<K, V>(c: Config, ops: seq<Op<K, V>>, k: K, j: nat)
    requires StaysSince(c, ops, k, j) && c.maxCapacity.Some? && BegunAfter(c, ops, j) < c.maxCapacity.value
    ensures HasKey(After(c, ops), k)
  {
    var _ := RecentStays(c, ops, k, j);
  }

  // -- Exactly, where nothing is removed and nothing expires --

  predicate OnlyInsertsAndReads<K(==), V>(ops: seq<Op<K, V>>) {
    forall i :: 0 <= i < |ops| ==> ops[i].Insert? || ops[i].Get?
  }

  /** The latest stay of the key to begin is the one at `j`. */
  ghost predicate LastStay<K, V>(c: Config, ops: seq<Op<K, V>>, k: K, j: nat) {
    && j < |ops| && Begins(c, ops, j) && ops[j].key == k
    && forall i :: j < i < |ops| && Begins(c, ops, i) ==> ops[i].key != k
  }

  lemma LastStayBefore<K, V>(c: Config, ops: seq<Op<K, V>>, k: K, j: nat)
    requires OnlyInsertsAndReads(ops) && LastStay(c, ops, k, j) && j + 1 < |ops|
    ensures LastStay(c, ops[..|ops| - 1], k, j)
  {
    var before := ops[..|ops| - 1];
    assert forall i: nat :: i < |before| ==> before[..i] == ops[..i];
    forall i | j < i < |before| && Begins(c, before, i)
      ensures before[i].key != k
    {
      assert Begins(c, ops, i);
    }
  }

  /** An insert of a new key puts it behind all others, and every other insert or read leaves the places. */
  lemma BehindMoves<K, V>(c: Config, l: seq<Slot<K, V>>, op: Op<K, V>, k: K, pos: nat, pos': nat)
    requires DistinctKeys(l) && WithinCapacity(c, l) && c.ttl.None? && c.tti.None? && (op.Insert? || op.Get?)
    requires c.maxCapacity.Some? && 0 < c.maxCapacity.value
    requires pos < |l| && l[pos].key == k && pos' < |Apply(c, l, op)| && Apply(c, l, op)[pos'].key == k
    ensures |Apply(c, l, op)| - pos' == |l| - pos + (if op.Insert? && !HasKey(l, op.key) then 1 else 0)
  {
    assert HasKey(l, k);
    if op.Insert? {
      InsertEvictsOldestIffFull(c, l, op);
    } else {
      FindMeaning(l, op.key);
    }
  }

  lemma {:induction false} BehindExactly<K, V>(c: Config, ops: seq<Op<K, V>>, k: K, j: nat) returns (pos: nat)
    requires OnlyInsertsAndReads(ops) && c.ttl.None? && c.tti.None? && c.maxCapacity.Some? && 0 < c.maxCapacity.value
    requires LastStay(c, ops, k, j) && HasKey(After(c, ops), k)
    ensures pos < |After(c, ops)| && After(c, ops)[pos].key == k && |After(c, ops)| - pos == BegunAfter(c, ops, j) + 1
    decreases |ops|
  {
    var n := |ops| - 1;
    var l, l', op := After(c, ops[..n]), After(c, ops), ops[n];
    RunKeepsShape(c, ops[..n]);
    if j == n {
      InsertEvictsOldestIffFull(c, l, op);
      pos := |l'| - 1;
    } else {
      LastStayBefore(c, ops, k, j);
      HeldBefore(c, ops, k, j);
      var before := BehindExactly(c, ops[..n], k, j);
      pos :| pos < |l'| && l'[pos].key == k;
      BehindMoves(c, l, op, k, before, pos);
    }
  }

  lemma HeldBefore<K, V>(c: Config, ops: seq<Op<K, V>>, k: K, j: nat)
    requires OnlyInsertsAndReads(ops) && c.ttl.None? && c.tti.None? && LastStay(c, ops, k, j) && j + 1 < |ops|
    requires HasKey(After(c, ops), k)
    ensures HasKey(After(c, ops[..|ops| - 1]), k)
  {
    var n := |ops| - 1;
    var l, l' := After(c, ops[..n]), After(c, ops);
    var pos :| 0 <= pos < |l'| && l'[pos].key == k;
    if ops[n].Insert? {
      RunKeepsShape(c, ops[..n]);
      InsertEvictsOldestIffFull(c, l, ops[n]);
      assert Begins(c, ops, n) ==> ops[n].key != k;
    } else {
      FindMeaning(l, ops[n].key);
    }
  }

  /** First in, first out, exactly: of inserts and reads alone, without expiry, a cache with `cap`
      places holds a key if and only if fewer than `cap` stays have begun since the key's last. */
  lemma HeldIffRecent<K, V>(c: Config, ops: seq<Op<K, V>>, k: K, j: nat)
    requires OnlyInsertsAndReads(ops) && c.ttl.None? && c.tti.None? && c.maxCapacity.Some? && 0 < c.maxCapacity.value
    requires LastStay(c, ops, k, j)
    ensures HasKey(After(c, ops), k) <==> BegunAfter(c, ops, j) < c.maxCapacity.value
  {
    if HasKey(After(c, ops), k) {
      var _ := BehindExactly(c, ops, k, j);
      RunKeepsShape(c, ops);
    }
    if BegunAfter(c, ops, j) < c.maxCapacity.value {
      RecentIsHeld(c, ops, k, j);
    }
  }
}
