/**
 The in-process cache: a hash map and a `sequence -> key` index kept in step, proved to
 behave like the list-ordered reference cache through every operation and every run.
 Clocks are parameters.
 */
module PortableCache {
  import opened FifoList
  import opened Options

  datatype CacheEntry<V> = CacheEntry(value: V, insertedAt: nat, lastAccessedAt: nat, stamp: nat)

  function SlotOf<K, V>(k: K, e: CacheEntry<V>): Slot<K, V> {
    Slot(k, e.value, e.insertedAt, e.lastAccessedAt)
  }

  // -- The index and the list it stands for --

  /** `order[s] == k` exactly when `entries[k].stamp == s`, and every stamp has been issued. */
  ghost predicate Consistent<K, V>(entries: map<K, CacheEntry<V>>, order: map<nat, K>, next: nat) {
    && (forall s :: s in order ==> s < next && order[s] in entries && entries[order[s]].stamp == s)
    && (forall k :: k in entries ==> entries[k].stamp in order && order[entries[k].stamp] == k)
  }

  ghost function Listing<K, V>(entries: map<K, CacheEntry<V>>, order: map<nat, K>, n: nat): seq<Slot<K, V>>
    requires forall s :: s in order ==> order[s] in entries
  {
    if n == 0 then []
    else Listing(entries, order, n - 1) +
         (if n - 1 in order then [SlotOf(order[n - 1], entries[order[n - 1]])] else [])
  }

  lemma {:induction false} ListingSame<K, V>(
    entries: map<K, CacheEntry<V>>, order: map<nat, K>, entries': map<K, CacheEntry<V>>, order': map<nat, K>, n: nat)
    requires forall s :: s in order ==> order[s] in entries
    requires forall s :: s in order' ==> order'[s] in entries'
    requires forall s :: s < n ==> (s in order' <==> s in order)
    requires forall s :: s < n && s in order ==> order'[s] == order[s] && entries'[order[s]] == entries[order[s]]
    ensures Listing(entries', order', n) == Listing(entries, order, n)
  {
    if n == 0 {
    } else {
      ListingSame(entries, order, entries', order', n - 1);
    }
  }

  /** Dropping stamps from the index and their keys from the map filters the list. */
  lemma {:induction false} ListingKeep<K, V>(
    entries: map<K, CacheEntry<V>>, order: map<nat, K>, entries': map<K, CacheEntry<V>>, order': map<nat, K>,
    n: nat, p: Slot<K, V> -> bool)
    requires forall s :: s in order ==> order[s] in entries
    requires forall s :: s in order' ==> order'[s] in entries'
    requires forall s :: s in order' <==> s in order && p(SlotOf(order[s], entries[order[s]]))
    requires forall s :: s in order' ==> order'[s] == order[s] && entries'[order[s]] == entries[order[s]]
    ensures Listing(entries', order', n) == Keep(Listing(entries, order, n), p)
  {
    if n == 0 {
    } else {
      ListingKeep(entries, order, entries', order', n - 1, p);
      var front := Listing(entries, order, n - 1);
      if n - 1 in order {
        assert (front + [SlotOf(order[n - 1], entries[order[n - 1]])])[..|front|] == front;
      } else {
        assert front + [] == front;
      }
    }
  }

  /** Retaining the map by a test and the index by what the map still holds. */
  lemma RetainListing<K, V>(
    entries: map<K, CacheEntry<V>>, order: map<nat, K>, entries': map<K, CacheEntry<V>>, order': map<nat, K>,
    next: nat, p: Slot<K, V> -> bool)
    requires Consistent(entries, order, next)
    requires entries' == map k | k in entries && p(SlotOf(k, entries[k])) :: entries[k]
    requires order' == map s | s in order && order[s] in entries' :: order[s]
    ensures Consistent(entries', order', next)
    ensures Listing(entries', order', next) == Keep(Listing(entries, order, next), p)
  {
    ListingKeep(entries, order, entries', order', next, p);
  }

  /** Rewriting one entry in place refreshes its slot in place. */
  lemma {:induction false} ListingRefresh<K, V>(
    entries: map<K, CacheEntry<V>>, order: map<nat, K>, k: K, e: CacheEntry<V>, n: nat)
    requires forall s :: s in order ==> order[s] in entries
    requires k in entries
    ensures Listing(entries[k := e], order, n) == Refresh(Listing(entries, order, n), SlotOf(k, e))
  {
    if n == 0 {
    } else {
      ListingRefresh(entries, order, k, e, n - 1);
    }
  }

  lemma ListingAppend<K, V>(entries: map<K, CacheEntry<V>>, order: map<nat, K>, k: K, e: CacheEntry<V>, next: nat)
    requires Consistent(entries, order, next) && k !in entries && e.stamp == next
    ensures Consistent(entries[k := e], order[next := k], next + 1)
    ensures Listing(entries[k := e], order[next := k], next + 1) == Listing(entries, order, next) + [SlotOf(k, e)]
  {
    ListingSame(entries, order, entries[k := e], order[next := k], next);
  }

  /** The list holds exactly the map's entries, each once. */
  lemma {:induction false} ListingMembers<K, V>(entries: map<K, CacheEntry<V>>, order: map<nat, K>, next: nat, n: nat)
    requires Consistent(entries, order, next)
    ensures forall i :: 0 <= i < |Listing(entries, order, n)| ==>
              var slot := Listing(entries, order, n)[i];
              slot.key in entries && slot == SlotOf(slot.key, entries[slot.key]) && entries[slot.key].stamp < n
    ensures forall k :: k in entries && entries[k].stamp < n ==> HasKey(Listing(entries, order, n), k)
    ensures DistinctKeys(Listing(entries, order, n))
  {
    if n == 0 {
    } else {
      ListingMembers(entries, order, next, n - 1);
      var front, l := Listing(entries, order, n - 1), Listing(entries, order, n);
      assert forall i :: 0 <= i < |front| ==> l[i] == front[i];
      forall k | k in entries && entries[k].stamp < n
        ensures HasKey(l, k)
      {
        if entries[k].stamp < n - 1 {
          var i :| 0 <= i < |front| && front[i].key == k;
          assert l[i].key == k;
        } else {
          assert l[|front|].key == k;
        }
      }
    }
  }

  lemma {:induction false} DistinctLength<K, V>(l: seq<Slot<K, V>>)
    requires DistinctKeys(l)
    ensures |set slot | slot in l :: slot.key| == |l|
    decreases |l|
  {
    if l == [] {
    } else {
      var n := |l| - 1;
      DistinctLength(l[..n]);
      var front := set slot | slot in l[..n] :: slot.key;
      assert forall slot :: slot in l <==> slot in l[..n] || slot == l[n];
      assert (set slot | slot in l :: slot.key) == front + {l[n].key};
      assert l[n].key !in front;
    }
  }

  lemma ListingFinds<K, V>(entries: map<K, CacheEntry<V>>, order: map<nat, K>, next: nat, k: K)
    requires Consistent(entries, order, next)
    ensures var found := Find(Listing(entries, order, next), k);
            && (found.Some? <==> k in entries)
            && (found.Some? ==> found.value == SlotOf(k, entries[k]))
  {
    var l := Listing(entries, order, next);
    ListingMembers(entries, order, next, next);
    FindMeaning(l, k);
    assert k in entries ==> entries[k].stamp in order;
  }

  lemma ListingSize<K, V>(entries: map<K, CacheEntry<V>>, order: map<nat, K>, next: nat)
    requires Consistent(entries, order, next)
    ensures |Listing(entries, order, next)| == |entries|
  {
    var l := Listing(entries, order, next);
    ListingMembers(entries, order, next, next);
    DistinctLength(l);
    assert (set slot | slot in l :: slot.key) == entries.Keys by {
      forall k | k in entries
        ensures exists slot :: slot in l && slot.key == k
      {
        assert entries[k].stamp in order;
        var i :| 0 <= i < |l| && l[i].key == k;
        assert l[i] in l;
      }
    }
  }

  lemma {:induction false} LeastStamp(stamps: set<nat>) returns (least: nat)
    requires stamps != {}
    ensures least in stamps && forall s :: s in stamps ==> least <= s
    decreases stamps
  {
    var x :| x in stamps;
    if stamps == {x} {
      least := x;
    } else {
      var rest := LeastStamp(stamps - {x});
      least := if rest < x then rest else x;
      assert forall s :: s in stamps ==> s == x || s in stamps - {x};
    }
  }

  /** The least stamp is the head of the list. */
  lemma {:induction false} LeastIsHead<K, V>(entries: map<K, CacheEntry<V>>, order: map<nat, K>, least: nat, n: nat)
    requires forall s :: s in order ==> order[s] in entries && least <= s
    requires least in order
    ensures n <= least ==> Listing(entries, order, n) == []
    ensures least < n ==> |Listing(entries, order, n)| > 0 && Listing(entries, order, n)[0].key == order[least]
  {
    if n > 0 {
      LeastIsHead(entries, order, least, n - 1);
    }
  }

  // -- The locked state --

  /** Taking the least stamp out of the index and its key out of the map drops the head. */
  lemma OldestRemoved<K, V>(entries: map<K, CacheEntry<V>>, order: map<nat, K>, next: nat, oldest: nat)
    requires Consistent(entries, order, next) && oldest in order && forall s :: s in order ==> oldest <= s
    ensures var list := Listing(entries, order, next);
            var entries', order' := entries - {order[oldest]}, order - {oldest};
            && list != [] && Consistent(entries', order', next) && Listing(entries', order', next) == list[1..]
  {
    var key := order[oldest];
    LeastIsHead(entries, order, oldest, next);
    ListingMembers(entries, order, next, next);
    WithoutHead(Listing(entries, order, next));
    ListingKeep(entries, order, entries - {key}, order - {oldest}, next, (slot: Slot<K, V>) => slot.key != key);
  }

  class CacheInner<K(==), V> {
    var entries: map<K, CacheEntry<V>>
    var order: map<nat, K>
    var nextSeq: nat

    ghost predicate Valid()
      reads this
    {
      Consistent(entries, order, nextSeq)
    }

    /** The reference list this index stands for. */
    ghost function Contents(): seq<Slot<K, V>>
      requires Valid()
      reads this
    {
      Listing(entries, order, nextSeq)
    }

    constructor ()
      ensures Valid() && Contents() == []
    {
      entries, order, nextSeq := map[], map[], 0;
    }

    method RemoveKey(key: K) returns (removed: Option<CacheEntry<V>>)
      requires Valid()
      modifies this
      ensures Valid() && Contents() == Without(old(Contents()), key)
      ensures removed == if key in old(entries) then Some(old(entries)[key]) else None
      ensures nextSeq == old(nextSeq)
    {
      if key !in entries {
        ListingMembers(entries, order, nextSeq, nextSeq);
        KeepAll(Contents(), (slot: Slot<K, V>) => slot.key != key);
        return None;
      }
      var entry := entries[key];
      entries := entries - {key};
      order := order - {entry.stamp};
      removed := Some(entry);
      ListingKeep(old(entries), old(order), entries, order, nextSeq, (slot: Slot<K, V>) => slot.key != key);
    }

    /** The list is as long as the map is big, and an empty index means an empty map. */
    lemma SizeIsLength()
      requires Valid()
      ensures |Contents()| == |entries|
      ensures order == map[] ==> entries == map[]
    {
      ListingSize(entries, order, nextSeq);
      if entries != map[] {
        var k :| k in entries;
        assert entries[k].stamp in order;
      }
    }

    /** `pop_first` on the index, then the matching map removal. */
    method PopOldest()
      requires Valid() && order != map[]
      modifies this
      ensures Valid() && old(Contents()) != [] && Contents() == old(Contents())[1..]
      ensures entries.Keys <= old(entries.Keys)
    {
      ghost var _ := LeastStamp(order.Keys);
      var oldest :| oldest in order && forall s :: s in order ==> oldest <= s;
      var oldestKey := order[oldest];
      OldestRemoved(entries, order, nextSeq, oldest);
      order := order - {oldest};
      entries := entries - {oldestKey};
    }

    /** The eviction loop: pops the oldest entries until there is room for one more, and not one more
        than that takes. */
    method EvictFor(cap: nat)
      requires Valid()
      modifies this
      ensures Valid() && Contents() == MakeRoom(old(Contents()), Some(cap))
      ensures |old(Contents())| < cap ==> Contents() == old(Contents())
      ensures 0 < cap <= |old(Contents())| ==> Contents() == old(Contents())[|old(Contents())| - cap + 1..]
      ensures entries.Keys <= old(entries.Keys)
    {
      ghost var out := 0;
      SizeIsLength();
      while |entries| >= cap
        invariant Valid() && entries.Keys <= old(entries.Keys)
        invariant out <= |old(Contents())| && Contents() == old(Contents())[out..]
        invariant |entries| == |Contents()|
        invariant out > 0 ==> |entries| + 1 >= cap
        decreases |entries|
      {
        SizeIsLength();
        if order == map[] {
          break;
        }
        PopOldest();
        SizeIsLength();
        out := out + 1;
      }
    }

    /** Inserts a key the caller has found absent, evicting the oldest entries first. */
    method InsertNew(key: K, value: V, now: nat, maxCapacity: Option<nat>)
      requires Valid() && key !in entries
      modifies this
      ensures Valid()
      ensures Contents() == MakeRoom(old(Contents()), maxCapacity) + [Slot(key, value, now, now)]
      ensures maxCapacity.Some? && 0 < maxCapacity.value ==>
                Contents() == (if |old(Contents())| < maxCapacity.value then old(Contents())
                               else old(Contents())[|old(Contents())| - maxCapacity.value + 1..]) + [Slot(key, value, now, now)]
    {
      if maxCapacity.Some? {
        EvictFor(maxCapacity.value);
      }
      var stamp := nextSeq;
      var entry := CacheEntry(value, now, now, stamp);
      ListingAppend(entries, order, key, entry, nextSeq);
      nextSeq := nextSeq + 1;
      order := order[stamp := key];
      entries := entries[key := entry];
    }

    /** Retains the map's entries that pass a test, then the index entries the map still holds. */
    method Retain(p: Slot<K, V> -> bool)
      requires Valid()
      modifies this
      ensures Valid() && Contents() == Keep(old(Contents()), p)
    {
      entries := map k | k in entries && p(SlotOf(k, entries[k])) :: entries[k];
      order := map s | s in order && order[s] in entries :: order[s];
      RetainListing(old(entries), old(order), entries, order, nextSeq, p);
    }

    /** Writes an entry through `get_mut`, keeping its stamp. */
    method Rewrite(key: K, entry: CacheEntry<V>)
      requires Valid() && key in entries && entry.stamp == entries[key].stamp
      modifies this
      ensures Valid() && Contents() == Refresh(old(Contents()), SlotOf(key, entry))
    {
      ListingRefresh(entries, order, key, entry, nextSeq);
      entries := entries[key := entry];
    }
  }

  // -- The cache --

  class PortableCache<K(==), V> {
    const config: Config
    const inner: CacheInner<K, V>

    ghost predicate Valid()
      reads this, inner
    {
      && inner.Valid()
      && DistinctKeys(inner.Contents())
      && WithinCapacity(config, inner.Contents())
    }

    constructor (config: Config)
      ensures Valid() && inner.Contents() == [] && this.config == config && fresh(inner)
    {
      this.config := config;
      this.inner := new CacheInner();
    }

    method IsExpired(key: K, entry: CacheEntry<V>, now: nat) returns (expired: bool)
      ensures expired == Expired(config, SlotOf(key, entry), now)
    {
      if config.ttl.Some? && Elapsed(now, entry.insertedAt) >= config.ttl.value {
        return true;
      }
      if config.tti.Some? && Elapsed(now, entry.lastAccessedAt) >= config.tti.value {
        return true;
      }
      expired := false;
    }

    method GetValue(key: K, now: nat) returns (found: Option<V>)
      requires Valid()
      modifies inner
      ensures Valid()
      ensures inner.Contents() == Apply(config, old(inner.Contents()), Get(key, now))
      ensures found == Answer(config, old(inner.Contents()), Get(key, now))
    {
      ListingFinds(inner.entries, inner.order, inner.nextSeq, key);
      ApplyKeepsShape(config, inner.Contents(), Get(key, now));
      if key !in inner.entries {
        return None;
      }
      var entry := inner.entries[key];
      var expired := IsExpired(key, entry, now);
      if expired {
        DropIfExpired(key, now);
        return None;
      }
      if config.tti.Some? {
        inner.Rewrite(key, entry.(lastAccessedAt := now));
      }
      found := Some(entry.value);
    }

    /** The second half of a read that saw an expired entry: re-check under the exclusive lock. */
    method DropIfExpired(key: K, now: nat)
      requires Valid()
      modifies inner
      ensures Valid()
      ensures inner.Contents() == Apply(config, old(inner.Contents()), DropExpired(key, now))
    {
      ListingFinds(inner.entries, inner.order, inner.nextSeq, key);
      ApplyKeepsShape(config, inner.Contents(), DropExpired(key, now));
      if key in inner.entries {
        var expired := IsExpired(key, inner.entries[key], now);
        if expired {
          var _ := inner.RemoveKey(key);
        }
      }
    }

    method InsertAndReturn(key: K, value: V, now: nat) returns (ret: V)
      requires Valid()
      modifies inner
      ensures Valid() && ret == value
      ensures inner.Contents() == Apply(config, old(inner.Contents()), Insert(key, value, now))
    {
      ListingFinds(inner.entries, inner.order, inner.nextSeq, key);
      ApplyKeepsShape(config, inner.Contents(), Insert(key, value, now));
      ret := value;
      if key in inner.entries {
        inner.Rewrite(key, inner.entries[key].(value := value, insertedAt := now, lastAccessedAt := now));
        return;
      }
      if config.maxCapacity == Some(0) {
        return;
      }
      inner.InsertNew(key, value, now, config.maxCapacity);
    }

    /** Removes the key; an expired entry goes but is not returned. */
    method RemoveValue(key: K, now: nat) returns (removed: Option<V>)
      requires Valid()
      modifies inner
      ensures Valid()
      ensures inner.Contents() == Apply(config, old(inner.Contents()), Remove(key, now))
      ensures removed == Answer(config, old(inner.Contents()), Remove(key, now))
    {
      ListingFinds(inner.entries, inner.order, inner.nextSeq, key);
      ApplyKeepsShape(config, inner.Contents(), Remove(key, now));
      var entry := inner.RemoveKey(key);
      if entry.None? {
        return None;
      }
      var expired := IsExpired(key, entry.value, now);
      removed := if expired then None else Some(entry.value.value);
    }

    method InvalidateKey(key: K)
      requires Valid()
      modifies inner
      ensures Valid()
      ensures inner.Contents() == Apply(config, old(inner.Contents()), Invalidate(key))
    {
      ApplyKeepsShape(config, inner.Contents(), Invalidate(key));
      var _ := inner.RemoveKey(key);
    }

    method ClearAll()
      requires Valid()
      modifies inner
      ensures Valid() && inner.Contents() == []
    {
      inner.entries := map[];
      inner.order := map[];
      inner.SizeIsLength();
    }

    /** Drops the expired entries from the map, then the index entries they leave behind. */
    method RunPendingTasks(now: nat)
      requires Valid()
      modifies inner
      ensures Valid()
      ensures inner.Contents() == Apply(config, old(inner.Contents()), Sweep(now))
    {
      ApplyKeepsShape(config, inner.Contents(), Sweep(now));
      inner.Retain((slot: Slot<K, V>) => !Expired(config, slot, now));
    }

    method Execute(op: Op<K, V>) returns (answer: Option<V>)
      requires Valid()
      modifies inner
      ensures Valid()
      ensures inner.Contents() == Apply(config, old(inner.Contents()), op)
      ensures answer == Answer(config, old(inner.Contents()), op)
    {
      answer := None;
      match op
      case Insert(k, v, now) => var _ := InsertAndReturn(k, v, now);
      case Get(k, now) => answer := GetValue(k, now);
      case Remove(k, now) => answer := RemoveValue(k, now);
      case Invalidate(k) => InvalidateKey(k);
      case Clear => ClearAll();
      case Sweep(now) => RunPendingTasks(now);
      case DropExpired(k, now) => DropIfExpired(k, now);
    }

    /** Every run of operations ends where the reference list does, with the same answers. */
    method Run(ops: seq<Op<K, V>>) returns (answers: seq<Option<V>>)
      requires Valid()
      modifies inner
      ensures Valid()
      ensures inner.Contents() == ApplyAll(config, old(inner.Contents()), ops)
      ensures answers == Answers(config, old(inner.Contents()), ops)
    {
      answers := [];
      for i := 0 to |ops|
        invariant Valid()
        invariant inner.Contents() == ApplyAll(config, old(inner.Contents()), ops[..i])
        invariant answers == Answers(config, old(inner.Contents()), ops[..i])
      {
        var answer := Execute(ops[i]);
        answers := answers + [answer];
        assert ops[..i + 1][..i] == ops[..i];
      }
      assert ops[..|ops|] == ops;
    }
  }
}
