/**
 What a read of the reference cache means in terms of the operations so far: it answers only with
 the latest insert of its key, within that insert's time to live, and without bounds on size and
 age it always does.
 */
module CacheHistory {
  import opened FifoList
  import opened Options

  /** Ends whatever an earlier insert of the key put there. */
  predicate Overrides<K(==), V>(op: Op<K, V>, k: K) {
    op.Clear? || ((op.Insert? || op.Remove? || op.Invalidate?) && op.key == k)
  }

  /** Operation `j` is the latest insert of the key, and nothing has ended it since. */
  predicate Latest<K(==), V>(ops: seq<Op<K, V>>, k: K, j: nat) {
    && j < |ops| && ops[j].Insert? && ops[j].key == k
    && forall i :: j < i < |ops| ==> !Overrides(ops[i], k)
  }

  predicate WrittenBy<K(==), V(==)>(slot: Slot<K, V>, op: Op<K, V>) {
    op.Insert? && op.key == slot.key && op.value == slot.value && op.now == slot.insertedAt
  }

  predicate SameWrite<K(==), V(==)>(a: Slot<K, V>, b: Slot<K, V>) {
    a.key == b.key && a.value == b.value && a.insertedAt == b.insertedAt
  }

  lemma {:induction false} KeepMembers<K, V>(l: seq<Slot<K, V>>, p: Slot<K, V> -> bool, slot: Slot<K, V>)
    ensures slot in Keep(l, p) <==> slot in l && p(slot)
    decreases |l|
  {
    if l == [] {
    } else {
      KeepMembers(l[..|l| - 1], p, slot);
      assert l == l[..|l| - 1] + [l[|l| - 1]];
    }
  }

  /** A slot after an operation was written by it, or was there before and not overridden. */
  lemma SlotComesFrom<K, V>(c: Config, l: seq<Slot<K, V>>, op: Op<K, V>, slot: Slot<K, V>) returns (before: Slot<K, V>)
    requires slot in Apply(c, l, op)
    ensures WrittenBy(slot, op) || (!Overrides(op, slot.key) && before in l && SameWrite(before, slot))
  {
    before := slot;
    match op
    case Insert(k, _, _) => FindMeaning(l, k);
    case Get(k, _) =>
      FindMeaning(l, k);
      KeepMembers(l, (s: Slot<K, V>) => s.key != k, slot);
      if Find(l, k).Some? && slot !in l {
        before := Find(l, k).value;
      }
    case Remove(k, _) => KeepMembers(l, (s: Slot<K, V>) => s.key != k, slot);
    case Invalidate(k) => KeepMembers(l, (s: Slot<K, V>) => s.key != k, slot);
    case Sweep(now) => KeepMembers(l, (s: Slot<K, V>) => !Expired(c, s, now), slot);
    case DropExpired(k, _) => KeepMembers(l, (s: Slot<K, V>) => s.key != k, slot);
    case Clear =>
  }

  /** Over every run, whatever was evicted, touched or expired: an entry held for a key is what the
      latest insert of the key wrote. */
  lemma {:induction false} EntryIsLatestInsert<K, V>(c: Config, ops: seq<Op<K, V>>, slot: Slot<K, V>) returns (j: nat)
    requires slot in ApplyAll(c, [], ops)
    ensures Latest(ops, slot.key, j) && WrittenBy(slot, ops[j])
    decreases |ops|
  {
    var n := |ops| - 1;
    var before := SlotComesFrom(c, ApplyAll(c, [], ops[..n]), ops[n], slot);
    if WrittenBy(slot, ops[n]) {
      j := n;
    } else {
      j := EntryIsLatestInsert(c, ops[..n], before);
    }
  }

  /** A read answers only with the value of the latest insert of its key, and only before that
      insert's time to live is over. */
  lemma ReadsLatestInsert<K, V>(c: Config, ops: seq<Op<K, V>>, k: K, now: nat) returns (j: nat)
    requires Answer(c, ApplyAll(c, [], ops), Op<K, V>.Get(k, now)).Some?
    ensures Latest(ops, k, j) && Answer(c, ApplyAll(c, [], ops), Get(k, now)) == Some(ops[j].value)
    ensures c.ttl.Some? ==> Elapsed(now, ops[j].now) < c.ttl.value
  {
    var l := ApplyAll(c, [], ops);
    FindMeaning(l, k);
    j := EntryIsLatestInsert(c, ops, Find(l, k).value);
  }

  predicate Unbounded(c: Config) {
    c.maxCapacity.None? && c.ttl.None? && c.tti.None?
  }

  /** Nothing but an overriding operation takes a key out of an unbounded cache. */
  lemma UnboundedKeeps<K, V>(c: Config, l: seq<Slot<K, V>>, op: Op<K, V>, k: K)
    requires Unbounded(c) && DistinctKeys(l)
    requires (op.Insert? && op.key == k) || (HasKey(l, k) && !Overrides(op, k))
    ensures HasKey(Apply(c, l, op), k)
  {
    var l' := Apply(c, l, op);
    if op.Insert? {
      FindMeaning(l, op.key);
      if Find(l, op.key).None? {
        assert l' == l + [Slot(op.key, op.value, op.now, op.now)];
        assert l'[|l|].key == op.key;
      }
      if i :| 0 <= i < |l| && l[i].key == k {
        assert l'[i].key == k;
      }
    } else {
      var i :| 0 <= i < |l| && l[i].key == k;
      var slot := l[i];
      match op {
        case Remove(k2, _) => KeepMembers(l, (s: Slot<K, V>) => s.key != k2, slot);
        case Invalidate(k2) => KeepMembers(l, (s: Slot<K, V>) => s.key != k2, slot);
        case Sweep(now) => KeepMembers(l, (s: Slot<K, V>) => !Expired(c, s, now), slot);
        case Get(k2, _) => FindMeaning(l, k2);
        case DropExpired(k2, _) => FindMeaning(l, k2);
      }
      assert slot in l';
    }
  }

  lemma {:induction false} UnboundedHoldsLatest<K, V>(c: Config, ops: seq<Op<K, V>>, k: K, j: nat)
    requires Unbounded(c) && Latest(ops, k, j)
    ensures HasKey(ApplyAll(c, [], ops), k)
    decreases |ops|
  {
    var n := |ops| - 1;
    RunKeepsShape(c, ops[..n]);
    if j < n {
      UnboundedHoldsLatest(c, ops[..n], k, j);
    }
    UnboundedKeeps(c, ApplyAll(c, [], ops[..n]), ops[n], k);
  }

  /** In an unbounded cache a read finds a value if and only if some insert of its key has not been
      overridden. */
  lemma UnboundedReadsEveryInsert<K, V>(c: Config, ops: seq<Op<K, V>>, k: K, now: nat)
    requires Unbounded(c)
    ensures Answer(c, ApplyAll(c, [], ops), Op<K, V>.Get(k, now)).Some? <==> exists j: nat :: Latest(ops, k, j)
  {
    var l := ApplyAll(c, [], ops);
    FindMeaning(l, k);
    if Answer(c, l, Op<K, V>.Get(k, now)).Some? {
      var j := ReadsLatestInsert(c, ops, k, now);
    }
    if j: nat :| Latest(ops, k, j) {
      UnboundedHoldsLatest(c, ops, k, j);
    }
  }
}
