/**
 When a two-lock read is atomic at some moment, exactly, in a cache without a size bound: unless
 the key stayed in the list all the time, was refreshed into life, and was overtaken, by the
 moment of that refresh, by a key that then stayed to the end.
 */
module AtomicMoments {
  import opened FifoList
  import opened Options
  import opened TwoLockRead

  predicate Simple(c: Config) {
    c.maxCapacity.None? && c.tti.None?
  }

  // -- An operation acts slot by slot --

  /** What becomes of one slot: itself, its refreshed self, or nothing. */
  function SlotAfter<K(==), V>(c: Config, op: Op<K, V>, slot: Slot<K, V>): seq<Slot<K, V>> {
    match op
    case Insert(k, v, now) => if slot.key == k then [Slot(k, v, now, now)] else [slot]
    case Get(k, now) => if slot.key == k && Expired(c, slot, now) then [] else [slot]
    case Remove(k, _) => if slot.key == k then [] else [slot]
    case Invalidate(k) => if slot.key == k then [] else [slot]
    case Clear => []
    case Sweep(now) => if Expired(c, slot, now) then [] else [slot]
    case DropExpired(k, now) => if slot.key == k && Expired(c, slot, now) then [] else [slot]
  }

  function Existing<K(==), V>(c: Config, op: Op<K, V>, l: seq<Slot<K, V>>): seq<Slot<K, V>> {
    if l == [] then [] else Existing(c, op, l[..|l| - 1]) + SlotAfter(c, op, l[|l| - 1])
  }

  function Added<K(==), V>(op: Op<K, V>, l: seq<Slot<K, V>>): seq<Slot<K, V>> {
    if op.Insert? && !HasKey(l, op.key) then [Slot(op.key, op.value, op.now, op.now)] else []
  }

  lemma {:induction false} ExistingAppend<K, V>(c: Config, op: Op<K, V>, a: seq<Slot<K, V>>, b: seq<Slot<K, V>>)
    ensures Existing(c, op, a + b) == Existing(c, op, a) + Existing(c, op, b)
    decreases |b|
  {
    if b == [] {
      assert a + b == a;
    } else {
      var n := |b| - 1;
      assert (a + b)[..|a + b| - 1] == a + b[..n];
      ExistingAppend(c, op, a, b[..n]);
    }
  }

  lemma ExistingOne<K, V>(c: Config, op: Op<K, V>, slot: Slot<K, V>)
    ensures Existing(c, op, [slot]) == SlotAfter(c, op, slot)
  {
    assert [slot][..0] == [];
  }

  lemma {:induction false} ExistingKeep<K, V>(c: Config, op: Op<K, V>, l: seq<Slot<K, V>>, p: Slot<K, V> -> bool)
    requires forall i :: 0 <= i < |l| ==> SlotAfter(c, op, l[i]) == if p(l[i]) then [l[i]] else []
    ensures Existing(c, op, l) == Keep(l, p)
    decreases |l|
  {
    if l == [] {
    } else {
      ExistingKeep(c, op, l[..|l| - 1], p);
    }
  }

  lemma {:induction false} ExistingRefresh<K, V>(c: Config, op: Op<K, V>, l: seq<Slot<K, V>>)
    requires op.Insert?
    ensures Existing(c, op, l) == Refresh(l, Slot(op.key, op.value, op.now, op.now))
    decreases |l|
  {
    if l == [] {
    } else {
      ExistingRefresh(c, op, l[..|l| - 1]);
    }
  }

  lemma {:induction false} ExistingSame<K, V>(c: Config, op: Op<K, V>, l: seq<Slot<K, V>>)
    requires forall i :: 0 <= i < |l| ==> SlotAfter(c, op, l[i]) == [l[i]]
    ensures Existing(c, op, l) == l
    decreases |l|
  {
    if l == [] {
    } else {
      ExistingSame(c, op, l[..|l| - 1]);
    }
  }

  lemma {:induction false} ExistingNone<K, V>(c: Config, l: seq<Slot<K, V>>)
    ensures Existing(c, Op<K, V>.Clear, l) == []
    decreases |l|
  {
    if l == [] {
    } else {
      ExistingNone(c, l[..|l| - 1]);
    }
  }

  /** In a list of distinct keys the found slot is the only one with its key. */
  lemma FoundIsOnly<K, V>(l: seq<Slot<K, V>>, k: K, i: nat)
    requires DistinctKeys(l) && i < |l| && l[i].key == k
    ensures Find(l, k) == Some(l[i])
  {
    FindMeaning(l, k);
    assert HasKey(l, k);
    var j :| 0 <= j < |l| && l[j] == Find(l, k).value;
  }

  lemma DropIsSlotwise<K, V>(c: Config, l: seq<Slot<K, V>>, op: Op<K, V>)
    requires Simple(c) && DistinctKeys(l) && (op.Get? || op.DropExpired?)
    ensures Apply(c, l, op) == Existing(c, op, l)
  {
    FindMeaning(l, op.key);
    forall i | 0 <= i < |l| && l[i].key == op.key
      ensures Find(l, op.key) == Some(l[i])
    {
      FoundIsOnly(l, op.key, i);
    }
    if Find(l, op.key).Some? && Expired(c, Find(l, op.key).value, op.now) {
      ExistingKeep(c, op, l, (slot: Slot<K, V>) => slot.key != op.key);
    } else {
      ExistingSame(c, op, l);
    }
  }

  lemma ApplyIsSlotwise<K, V>(c: Config, l: seq<Slot<K, V>>, op: Op<K, V>)
    requires Simple(c) && DistinctKeys(l)
    ensures Apply(c, l, op) == Existing(c, op, l) + Added(op, l)
  {
    match op
    case Insert(k, _, _) =>
      FindMeaning(l, k);
      ExistingRefresh(c, op, l);
      if !HasKey(l, k) {
        ExistingSame(c, op, l);
      }
    case Get(_, _) => DropIsSlotwise(c, l, op);
    case DropExpired(_, _) => DropIsSlotwise(c, l, op);
    case Remove(k, _) => ExistingKeep(c, op, l, (slot: Slot<K, V>) => slot.key != k);
    case Invalidate(k) => ExistingKeep(c, op, l, (slot: Slot<K, V>) => slot.key != k);
    case Clear => ExistingNone(c, l);
    case Sweep(now) => ExistingKeep(c, op, l, (slot: Slot<K, V>) => !Expired(c, slot, now));
  }

  // -- Keys of what an operation leaves --

  lemma HasKeyAppend<K, V>(a: seq<Slot<K, V>>, b: seq<Slot<K, V>>, x: K)
    ensures HasKey(a + b, x) <==> HasKey(a, x) || HasKey(b, x)
  {
    if i :| 0 <= i < |a| && a[i].key == x {
      assert (a + b)[i].key == x;
    }
    if i :| 0 <= i < |b| && b[i].key == x {
      assert (a + b)[|a| + i].key == x;
    }
  }

  lemma HasKeyOne<K, V>(slot: Slot<K, V>, x: K)
    ensures HasKey([slot], x) <==> slot.key == x
  {
    assert [slot][0] == slot;
  }

  lemma {:induction false} ExistingKeys<K, V>(c: Config, op: Op<K, V>, l: seq<Slot<K, V>>, x: K)
    ensures HasKey(Existing(c, op, l), x) ==> HasKey(l, x)
    ensures HasKey(l, x) && op.Insert? ==> HasKey(Existing(c, op, l), x)
    decreases |l|
  {
    if l == [] {
    } else {
      var n := |l| - 1;
      var kept := SlotAfter(c, op, l[n]);
      ExistingKeys(c, op, l[..n], x);
      assert l[..n] + [l[n]] == l;
      HasKeyAppend(l[..n], [l[n]], x);
      HasKeyOne(l[n], x);
      HasKeyAppend(Existing(c, op, l[..n]), kept, x);
      if kept != [] {
        assert kept == [kept[0]];
        HasKeyOne(kept[0], x);
      }
    }
  }

  /** A key of the list is there after the operation exactly when its slot was kept. */
  lemma KeyStaysIffKept<K, V>(c: Config, op: Op<K, V>, l: seq<Slot<K, V>>, x: K)
    requires Simple(c) && DistinctKeys(l) && HasKey(l, x)
    ensures HasKey(Apply(c, l, op), x) <==> HasKey(Existing(c, op, l), x)
  {
    ApplyIsSlotwise(c, l, op);
    HasKeyAppend(Existing(c, op, l), Added(op, l), x);
    if Added(op, l) != [] {
      HasKeyOne(Added(op, l)[0], x);
    }
  }

  // -- Two lists that differ in where one key stands --

  /** The list with `s` before `b`, where it stood. */
  function Early<K, V>(a: seq<Slot<K, V>>, s: Slot<K, V>, b: seq<Slot<K, V>>, n: seq<Slot<K, V>>): seq<Slot<K, V>> {
    a + [s] + b + n
  }

  /** The list with `s` behind `b`, where it came back. */
  function Late<K, V>(a: seq<Slot<K, V>>, s: Slot<K, V>, b: seq<Slot<K, V>>, n: seq<Slot<K, V>>): seq<Slot<K, V>> {
    a + b + [s] + n
  }

  lemma SameKeys<K, V>(a: seq<Slot<K, V>>, s: Slot<K, V>, b: seq<Slot<K, V>>, n: seq<Slot<K, V>>, x: K)
    ensures HasKey(Early(a, s, b, n), x) <==> HasKey(a, x) || s.key == x || HasKey(b, x) || HasKey(n, x)
    ensures HasKey(Late(a, s, b, n), x) <==> HasKey(Early(a, s, b, n), x)
  {
    HasKeyOne(s, x);
    HasKeyAppend(a, [s], x);
    HasKeyAppend(a + [s], b, x);
    HasKeyAppend(a + [s] + b, n, x);
    HasKeyAppend(a, b, x);
    HasKeyAppend(a + b, [s], x);
    HasKeyAppend(a + b + [s], n, x);
  }

  /** Where the slot at `i` of the late list stands in the early one. */
  function Place(a: nat, b: nat, i: nat): nat {
    if i < a || a + b < i then i else if i == a + b then a else i + 1
  }

  lemma LateIsDistinct<K, V>(a: seq<Slot<K, V>>, s: Slot<K, V>, b: seq<Slot<K, V>>, n: seq<Slot<K, V>>)
    requires DistinctKeys(Early(a, s, b, n))
    ensures DistinctKeys(Late(a, s, b, n))
  {
    var early, late := Early(a, s, b, n), Late(a, s, b, n);
    assert forall i :: 0 <= i < |late| ==> late[i] == early[Place(|a|, |b|, i)];
  }

  lemma PartsAreDisjoint<K, V>(a: seq<Slot<K, V>>, s: Slot<K, V>, b: seq<Slot<K, V>>, n: seq<Slot<K, V>>, x: K)
    requires DistinctKeys(Early(a, s, b, n))
    ensures s.key == x ==> !HasKey(a, x) && !HasKey(b, x) && !HasKey(n, x)
    ensures HasKey(b, x) ==> !HasKey(a, x) && s.key != x && !HasKey(n, x)
  {
    var l := Early(a, s, b, n);
    assert forall i :: 0 <= i < |a| ==> l[i] == a[i];
    assert l[|a|] == s;
    assert forall i :: 0 <= i < |b| ==> l[|a| + 1 + i] == b[i];
    assert forall i :: 0 <= i < |n| ==> l[|a| + 1 + |b| + i] == n[i];
  }

  lemma ExistingParts<K, V>(c: Config, op: Op<K, V>, a: seq<Slot<K, V>>, s: Slot<K, V>, b: seq<Slot<K, V>>, n: seq<Slot<K, V>>)
    ensures Existing(c, op, Early(a, s, b, n)) ==
            Existing(c, op, a) + SlotAfter(c, op, s) + Existing(c, op, b) + Existing(c, op, n)
    ensures Existing(c, op, Late(a, s, b, n)) ==
            Existing(c, op, a) + Existing(c, op, b) + SlotAfter(c, op, s) + Existing(c, op, n)
  {
    ExistingOne(c, op, s);
    ExistingAppend(c, op, a, [s]);
    ExistingAppend(c, op, a + [s], b);
    ExistingAppend(c, op, a + [s] + b, n);
    ExistingAppend(c, op, a, b);
    ExistingAppend(c, op, a + b, [s]);
    ExistingAppend(c, op, a + b + [s], n);
  }

  /** Only the slot itself can carry its key on. */
  lemma OwnSlotKept<K, V>(c: Config, op: Op<K, V>, a: seq<Slot<K, V>>, s: Slot<K, V>, b: seq<Slot<K, V>>, n: seq<Slot<K, V>>)
    requires Simple(c) && DistinctKeys(Early(a, s, b, n))
    requires HasKey(Apply(c, Early(a, s, b, n), op), s.key)
    ensures |SlotAfter(c, op, s)| == 1 && SlotAfter(c, op, s)[0].key == s.key
  {
    var ea, eb, en := Existing(c, op, a), Existing(c, op, b), Existing(c, op, n);
    SameKeys(a, s, b, n, s.key);
    KeyStaysIffKept(c, op, Early(a, s, b, n), s.key);
    ExistingParts(c, op, a, s, b, n);
    PartsAreDisjoint(a, s, b, n, s.key);
    ExistingKeys(c, op, a, s.key);
    ExistingKeys(c, op, b, s.key);
    ExistingKeys(c, op, n, s.key);
    HasKeyAppend(ea, SlotAfter(c, op, s), s.key);
    HasKeyAppend(ea + SlotAfter(c, op, s), eb, s.key);
    HasKeyAppend(ea + SlotAfter(c, op, s) + eb, en, s.key);
  }

  lemma SameAdded<K, V>(op: Op<K, V>, a: seq<Slot<K, V>>, s: Slot<K, V>, b: seq<Slot<K, V>>, n: seq<Slot<K, V>>)
    ensures Added(op, Late(a, s, b, n)) == Added(op, Early(a, s, b, n))
  {
    if op.Insert? {
      SameKeys(a, s, b, n, op.key);
    }
  }

  lemma AppendRegroups<T>(p: seq<T>, q: seq<T>, r: seq<T>)
    ensures p + q + r == p + (q + r)
  {
  }

  /** The two lists stay such a pair under any operation that leaves the key in. */
  lemma MovedStep<K, V>(c: Config, op: Op<K, V>, a: seq<Slot<K, V>>, s: Slot<K, V>, b: seq<Slot<K, V>>, n: seq<Slot<K, V>>)
    requires Simple(c) && DistinctKeys(Early(a, s, b, n))
    requires HasKey(Apply(c, Early(a, s, b, n), op), s.key)
    ensures |SlotAfter(c, op, s)| == 1 && SlotAfter(c, op, s)[0].key == s.key
    ensures var s', n' := SlotAfter(c, op, s)[0], Existing(c, op, n) + Added(op, Early(a, s, b, n));
            && Apply(c, Early(a, s, b, n), op) == Early(Existing(c, op, a), s', Existing(c, op, b), n')
            && Apply(c, Late(a, s, b, n), op) == Late(Existing(c, op, a), s', Existing(c, op, b), n')
  {
    OwnSlotKept(c, op, a, s, b, n);
    var ea, es, eb, en := Existing(c, op, a), SlotAfter(c, op, s), Existing(c, op, b), Existing(c, op, n);
    var added := Added(op, Early(a, s, b, n));
    assert es == [es[0]];
    ExistingParts(c, op, a, s, b, n);
    LateIsDistinct(a, s, b, n);
    SameAdded(op, a, s, b, n);
    ApplyIsSlotwise(c, Early(a, s, b, n), op);
    ApplyIsSlotwise(c, Late(a, s, b, n), op);
    AppendRegroups(ea + es + eb, en, added);
    AppendRegroups(ea + eb + es, en, added);
  }

  /** The keys in between are those that were and are still there. */
  lemma BetweenAfterStep<K, V>(c: Config, op: Op<K, V>, a: seq<Slot<K, V>>, s: Slot<K, V>, b: seq<Slot<K, V>>,
                               n: seq<Slot<K, V>>, x: K)
    requires Simple(c) && DistinctKeys(Early(a, s, b, n))
    requires HasKey(Apply(c, Early(a, s, b, n), op), s.key)
    ensures HasKey(Existing(c, op, b), x) <==> HasKey(b, x) && HasKey(Apply(c, Early(a, s, b, n), op), x)
  {
    MovedStep(c, op, a, s, b, n);
    var s', n' := SlotAfter(c, op, s)[0], Existing(c, op, n) + Added(op, Early(a, s, b, n));
    SameKeys(Existing(c, op, a), s', Existing(c, op, b), n', x);
    ExistingKeys(c, op, b, x);
    if HasKey(b, x) {
      PartsAreDisjoint(a, s, b, n, x);
      SameKeys(a, s, b, n, x);
      ExistingKeys(c, op, a, x);
      ExistingKeys(c, op, n, x);
      HasKeyAppend(Existing(c, op, n), Added(op, Early(a, s, b, n)), x);
      if Added(op, Early(a, s, b, n)) != [] {
        HasKeyOne(Added(op, Early(a, s, b, n))[0], x);
      }
    }
  }

  // -- The run between the locks, and its replay without the key --

  /** The list after the first `q` operations. */
  function At<K(==), V>(c: Config, l: seq<Slot<K, V>>, mid: seq<Op<K, V>>, q: nat): seq<Slot<K, V>>
    requires q <= |mid|
  {
    ApplyAll(c, l, mid[..q])
  }

  /** The list that operations `j` to `q` make of `r`. */
  function Replayed<K(==), V>(c: Config, r: seq<Slot<K, V>>, mid: seq<Op<K, V>>, j: nat, q: nat): seq<Slot<K, V>>
    requires j <= q <= |mid|
  {
    ApplyAll(c, r, mid[j..q])
  }

  lemma ApplyAllNext<K, V>(c: Config, l: seq<Slot<K, V>>, ops: seq<Op<K, V>>, op: Op<K, V>)
    ensures ApplyAll(c, l, ops + [op]) == Apply(c, ApplyAll(c, l, ops), op)
  {
    assert (ops + [op])[..|ops|] == ops;
  }

  lemma AtNext<K, V>(c: Config, l: seq<Slot<K, V>>, mid: seq<Op<K, V>>, q: nat)
    requires q < |mid|
    ensures At(c, l, mid, q + 1) == Apply(c, At(c, l, mid, q), mid[q])
  {
    ApplyAllNext(c, l, mid[..q], mid[q]);
    assert mid[..q] + [mid[q]] == mid[..q + 1];
  }

  lemma ReplayedNext<K, V>(c: Config, r: seq<Slot<K, V>>, mid: seq<Op<K, V>>, j: nat, q: nat)
    requires j <= q < |mid|
    ensures Replayed(c, r, mid, j, q + 1) == Apply(c, Replayed(c, r, mid, j, q), mid[q])
  {
    ApplyAllNext(c, r, mid[j..q], mid[q]);
    assert mid[j..q] + [mid[q]] == mid[j..q + 1];
  }

  lemma {:induction false} AtIsDistinct<K, V>(c: Config, l: seq<Slot<K, V>>, mid: seq<Op<K, V>>, q: nat)
    requires Simple(c) && DistinctKeys(l) && q <= |mid|
    ensures DistinctKeys(At(c, l, mid, q))
    decreases q
  {
    if q == 0 {
      assert mid[..0] == [];
    } else {
      AtIsDistinct(c, l, mid, q - 1);
      AtNext(c, l, mid, q - 1);
      ApplyKeepsShape(c, At(c, l, mid, q - 1), mid[q - 1]);
    }
  }

  /** The key is in the list after each of the operations `p` to `q`. */
  ghost predicate Stays<K, V>(c: Config, l: seq<Slot<K, V>>, mid: seq<Op<K, V>>, x: K, p: nat, q: nat)
    requires q <= |mid|
  {
    forall i :: p <= i <= q ==> HasKey(At(c, l, mid, i), x)
  }

  /** From a pair of lists that differ in where `s` stands, the run and its replay go on as such a
      pair while the key of `s` stays; the keys in between are those that stay as well. */
  lemma {:induction false} MovedRun<K(!new), V>(
    c: Config, l: seq<Slot<K, V>>, r: seq<Slot<K, V>>, mid: seq<Op<K, V>>, j: nat, p: nat, q: nat,
    a: seq<Slot<K, V>>, s: Slot<K, V>, b: seq<Slot<K, V>>, n: seq<Slot<K, V>>)
    returns (a': seq<Slot<K, V>>, s': Slot<K, V>, b': seq<Slot<K, V>>, n': seq<Slot<K, V>>)
    requires Simple(c) && DistinctKeys(l) && j <= p <= q <= |mid|
    requires At(c, l, mid, p) == Early(a, s, b, n) && Replayed(c, r, mid, j, p) == Late(a, s, b, n)
    requires Stays(c, l, mid, s.key, p, q)
    ensures s'.key == s.key
    ensures At(c, l, mid, q) == Early(a', s', b', n') && Replayed(c, r, mid, j, q) == Late(a', s', b', n')
    ensures forall x :: HasKey(b', x) <==> HasKey(b, x) && Stays(c, l, mid, x, p, q)
    decreases q
  {
    if q == p {
      a', s', b', n' := a, s, b, n;
      forall x
        ensures HasKey(b, x) ==> Stays(c, l, mid, x, p, p)
      {
        SameKeys(a, s, b, n, x);
      }
    } else {
      var op := mid[q - 1];
      var a0, s0, b0, n0 := MovedRun(c, l, r, mid, j, p, q - 1, a, s, b, n);
      AtIsDistinct(c, l, mid, q - 1);
      AtNext(c, l, mid, q - 1);
      ReplayedNext(c, r, mid, j, q - 1);
      assert HasKey(At(c, l, mid, q), s.key);
      MovedStep(c, op, a0, s0, b0, n0);
      a', s', b' := Existing(c, op, a0), SlotAfter(c, op, s0)[0], Existing(c, op, b0);
      n' := Existing(c, op, n0) + Added(op, Early(a0, s0, b0, n0));
      forall x
        ensures HasKey(b', x) <==> HasKey(b, x) && Stays(c, l, mid, x, p, q)
      {
        BetweenAfterStep(c, op, a0, s0, b0, n0, x);
        StaysNext(c, l, mid, x, p, q);
      }
    }
  }

  lemma StaysNext<K, V>(c: Config, l: seq<Slot<K, V>>, mid: seq<Op<K, V>>, x: K, p: nat, q: nat)
    requires p < q <= |mid|
    ensures Stays(c, l, mid, x, p, q) <==> Stays(c, l, mid, x, p, q - 1) && HasKey(At(c, l, mid, q), x)
  {
  }

  // -- Before the refresh: the replay runs as if the key were not there --

  lemma {:induction false} WithoutAppend<K, V>(a: seq<Slot<K, V>>, b: seq<Slot<K, V>>, k: K)
    ensures Without(a + b, k) == Without(a, k) + Without(b, k)
    decreases |b|
  {
    if b == [] {
      assert a + b == a;
    } else {
      var n := |b| - 1;
      assert (a + b)[..|a + b| - 1] == a + b[..n];
      WithoutAppend(a, b[..n], k);
    }
  }

  lemma WithoutOne<K, V>(slot: Slot<K, V>, k: K)
    ensures Without([slot], k) == if slot.key == k then [] else [slot]
  {
    assert Keep([slot][..0], (s: Slot<K, V>) => s.key != k) == [];
  }

  lemma {:induction false} WithoutKeys<K, V>(l: seq<Slot<K, V>>, k: K, x: K)
    ensures HasKey(Without(l, k), x) <==> HasKey(l, x) && x != k
    decreases |l|
  {
    if l == [] {
    } else {
      var n := |l| - 1;
      assert l == l[..n] + [l[n]];
      WithoutKeys(l[..n], k, x);
      WithoutAppend(l[..n], [l[n]], k);
      WithoutOne(l[n], k);
      HasKeyAppend(l[..n], [l[n]], x);
      HasKeyAppend(Without(l[..n], k), Without([l[n]], k), x);
      HasKeyOne(l[n], x);
    }
  }

  predicate Inserts<K(==), V>(op: Op<K, V>, k: K) {
    op.Insert? && op.key == k
  }

  lemma ExistingWithoutOne<K, V>(c: Config, op: Op<K, V>, slot: Slot<K, V>, k: K)
    ensures Existing(c, op, Without([slot], k)) == Without(SlotAfter(c, op, slot), k)
  {
    var kept := SlotAfter(c, op, slot);
    WithoutOne(slot, k);
    ExistingOne(c, op, slot);
    if kept == [] {
      assert Keep(kept, (s: Slot<K, V>) => s.key != k) == [];
    } else {
      assert kept == [kept[0]] && kept[0].key == slot.key;
      WithoutOne(kept[0], k);
    }
  }

  lemma {:induction false} ExistingWithout<K, V>(c: Config, op: Op<K, V>, l: seq<Slot<K, V>>, k: K)
    ensures Existing(c, op, Without(l, k)) == Without(Existing(c, op, l), k)
    decreases |l|
  {
    if l == [] {
      assert Keep(l, (s: Slot<K, V>) => s.key != k) == [];
    } else {
      var front, last := l[..|l| - 1], l[|l| - 1];
      assert l == front + [last];
      ExistingWithout(c, op, front, k);
      ExistingWithoutOne(c, op, last, k);
      WithoutAppend(front, [last], k);
      ExistingAppend(c, op, Without(front, k), Without([last], k));
      WithoutAppend(Existing(c, op, front), SlotAfter(c, op, last), k);
    }
  }

  lemma WithoutIsDistinct<K, V>(l: seq<Slot<K, V>>, k: K)
    requires DistinctKeys(l)
    ensures DistinctKeys(Without(l, k))
  {
    var _ := KeepIsSubsequence(l, (slot: Slot<K, V>) => slot.key != k);
  }

  /** An operation that does not insert the key does the same to the other keys with or without it. */
  lemma WithoutStep<K, V>(c: Config, l: seq<Slot<K, V>>, op: Op<K, V>, k: K)
    requires Simple(c) && DistinctKeys(l) && !Inserts(op, k)
    ensures Apply(c, Without(l, k), op) == Without(Apply(c, l, op), k)
  {
    WithoutIsDistinct(l, k);
    ApplyIsSlotwise(c, l, op);
    ApplyIsSlotwise(c, Without(l, k), op);
    ExistingWithout(c, op, l, k);
    WithoutAppend(Existing(c, op, l), Added(op, l), k);
    if op.Insert? {
      WithoutKeys(l, k, op.key);
    }
    if Added(op, l) != [] {
      WithoutOne(Added(op, l)[0], k);
    }
  }

  /** Operation `p` is the first from `j` on to insert the key. */
  predicate FirstInsert<K(==), V>(mid: seq<Op<K, V>>, k: K, j: nat, p: nat) {
    && j <= p < |mid|
    && Inserts(mid[p], k)
    && forall i :: j <= i < p ==> !Inserts(mid[i], k)
  }

  lemma {:induction false} DroppedRun<K, V>(c: Config, l: seq<Slot<K, V>>, mid: seq<Op<K, V>>, k: K, j: nat, q: nat)
    requires Simple(c) && DistinctKeys(l) && j <= q <= |mid|
    requires forall i :: j <= i < q ==> !Inserts(mid[i], k)
    ensures Replayed(c, Without(At(c, l, mid, j), k), mid, j, q) == Without(At(c, l, mid, q), k)
    decreases q
  {
    if q == j {
      assert mid[j..j] == [];
    } else {
      DroppedRun(c, l, mid, k, j, q - 1);
      ReplayedNext(c, Without(At(c, l, mid, j), k), mid, j, q - 1);
      AtNext(c, l, mid, q - 1);
      AtIsDistinct(c, l, mid, q - 1);
      WithoutStep(c, At(c, l, mid, q - 1), mid[q - 1], k);
    }
  }

  /** A slot whose key is neither inserted nor dropped is the same slot. */
  lemma FoundStays<K, V>(c: Config, l: seq<Slot<K, V>>, op: Op<K, V>, k: K)
    requires Simple(c) && DistinctKeys(l) && !Inserts(op, k)
    requires HasKey(l, k) && HasKey(Apply(c, l, op), k)
    ensures Find(Apply(c, l, op), k) == Find(l, k)
  {
    var i :| 0 <= i < |l| && l[i].key == k;
    var a, s, b := l[..i], l[i], l[i + 1..];
    assert l == Early(a, s, b, []);
    MovedStep(c, op, a, s, b, []);
    FoundIsOnly(l, k, i);
    ApplyKeepsShape(c, l, op);
    var l' := Apply(c, l, op);
    assert SlotAfter(c, op, s) == [s];
    assert l'[|Existing(c, op, a)|] == s;
    FoundIsOnly(l', k, |Existing(c, op, a)|);
  }

  /** A key that stays, expired at `j` and live in the end, was inserted in between; up to there it
      is the expired slot. */
  lemma {:induction false} RefreshExists<K, V>(c: Config, l: seq<Slot<K, V>>, mid: seq<Op<K, V>>, k: K, now: nat, j: nat)
    returns (p: nat)
    requires Simple(c) && DistinctKeys(l) && j <= |mid| && Stays(c, l, mid, k, 0, |mid|)
    requires SeesExpired(c, At(c, l, mid, j), k, now) && Live(c, At(c, l, mid, |mid|), k, now)
    ensures FirstInsert(mid, k, j, p)
    decreases |mid| - j
  {
    if Inserts(mid[j], k) {
      p := j;
    } else {
      AtNext(c, l, mid, j);
      AtIsDistinct(c, l, mid, j);
      FoundStays(c, At(c, l, mid, j), mid[j], k);
      p := RefreshExists(c, l, mid, k, now, j + 1);
    }
  }

  // -- The refresh --

  ghost predicate Behind<K, V>(l: seq<Slot<K, V>>, k: K, x: K) {
    exists i, m :: 0 <= i < m < |l| && l[i].key == k && l[m].key == x
  }

  lemma BehindInEarly<K, V>(a: seq<Slot<K, V>>, s: Slot<K, V>, b: seq<Slot<K, V>>, n: seq<Slot<K, V>>, x: K)
    ensures HasKey(b, x) ==> Behind(Early(a, s, b, n), s.key, x)
    ensures n == [] && DistinctKeys(Early(a, s, b, n)) && Behind(Early(a, s, b, n), s.key, x) ==> HasKey(b, x)
  {
    var l := Early(a, s, b, n);
    assert l[|a|] == s;
    assert forall i :: 0 <= i < |b| ==> l[|a| + 1 + i] == b[i];
  }

  lemma WithoutAbsent<K, V>(l: seq<Slot<K, V>>, k: K)
    requires !HasKey(l, k)
    ensures Without(l, k) == l
  {
    KeepAll(l, (slot: Slot<K, V>) => slot.key != k);
  }

  lemma WithoutMiddle<K, V>(a: seq<Slot<K, V>>, s: Slot<K, V>, b: seq<Slot<K, V>>)
    requires DistinctKeys(Early(a, s, b, []))
    ensures Without(Early(a, s, b, []), s.key) == a + b
  {
    assert Early(a, s, b, []) == a + [s] + b;
    PartsAreDisjoint(a, s, b, [], s.key);
    WithoutAppend(a + [s], b, s.key);
    WithoutAppend(a, [s], s.key);
    WithoutOne(s, s.key);
    WithoutAbsent(a, s.key);
    WithoutAbsent(b, s.key);
  }

  lemma RefreshInPlace<K, V>(a: seq<Slot<K, V>>, s: Slot<K, V>, b: seq<Slot<K, V>>, s': Slot<K, V>)
    requires DistinctKeys(Early(a, s, b, [])) && s'.key == s.key
    ensures Refresh(Early(a, s, b, []), s') == Early(a, s', b, [])
  {
    PartsAreDisjoint(a, s, b, [], s.key);
  }

  /** At the insert the run refreshes the key where it stands; the replay puts it at the back. */
  lemma InsertSplits<K, V>(c: Config, op: Op<K, V>, a: seq<Slot<K, V>>, s: Slot<K, V>, b: seq<Slot<K, V>>)
    requires Simple(c) && DistinctKeys(Early(a, s, b, [])) && Inserts(op, s.key)
    ensures var s' := Slot(op.key, op.value, op.now, op.now);
            && Apply(c, Early(a, s, b, []), op) == Early(a, s', b, [])
            && Apply(c, Without(Early(a, s, b, []), s.key), op) == Late(a, s', b, [])
  {
    var l, s' := Early(a, s, b, []), Slot(op.key, op.value, op.now, op.now);
    RefreshInPlace(a, s, b, s');
    SameKeys(a, s, b, [], s.key);
    FindMeaning(l, s.key);
    WithoutMiddle(a, s, b);
    WithoutKeys(l, s.key, s.key);
    FindMeaning(a + b, s.key);
    assert a + b + [s'] == Late(a, s', b, []);
  }

  lemma SplitAt<K(!new), V>(l: seq<Slot<K, V>>, k: K) returns (a: seq<Slot<K, V>>, s: Slot<K, V>, b: seq<Slot<K, V>>)
    requires DistinctKeys(l) && HasKey(l, k)
    ensures s.key == k && l == Early(a, s, b, [])
    ensures forall x :: HasKey(b, x) <==> Behind(l, k, x)
  {
    var i :| 0 <= i < |l| && l[i].key == k;
    a, s, b := l[..i], l[i], l[i + 1..];
    assert l == Early(a, s, b, []);
    forall x
      ensures HasKey(b, x) <==> Behind(l, k, x)
    {
      BehindInEarly(a, s, b, [], x);
    }
  }

  /** From the first insert after `j` on, the run and the replay from `j` without the key differ in
      just this: the run has the key before those that stood behind it at that insert and stay. */
  lemma ReplayPair<K(!new), V>(c: Config, l: seq<Slot<K, V>>, mid: seq<Op<K, V>>, k: K, j: nat, p: nat, q: nat)
    returns (a: seq<Slot<K, V>>, s: Slot<K, V>, b: seq<Slot<K, V>>, n: seq<Slot<K, V>>)
    requires Simple(c) && DistinctKeys(l) && p < q <= |mid| && Stays(c, l, mid, k, 0, |mid|) && FirstInsert(mid, k, j, p)
    ensures s.key == k
    ensures At(c, l, mid, q) == Early(a, s, b, n)
    ensures Replayed(c, Without(At(c, l, mid, j), k), mid, j, q) == Late(a, s, b, n)
    ensures forall x :: HasKey(b, x) <==> Behind(At(c, l, mid, p), k, x) && Stays(c, l, mid, x, p, q)
  {
    var r, there := Without(At(c, l, mid, j), k), At(c, l, mid, p);
    AtIsDistinct(c, l, mid, p);
    DroppedRun(c, l, mid, k, j, p);
    var a0, s0, b0 := SplitAt(there, k);
    InsertSplits(c, mid[p], a0, s0, b0);
    AtNext(c, l, mid, p);
    ReplayedNext(c, r, mid, j, p);
    a, s, b, n := MovedRun(c, l, r, mid, j, p + 1, q, a0, Slot(k, mid[p].value, mid[p].now, mid[p].now), b0, []);
    forall x
      ensures HasKey(b, x) <==> Behind(there, k, x) && Stays(c, l, mid, x, p, q)
    {
      SameKeys(a0, s0, b0, [], x);
      StaysFrom(c, l, mid, x, p, q);
    }
  }

  lemma StaysFrom<K, V>(c: Config, l: seq<Slot<K, V>>, mid: seq<Op<K, V>>, x: K, p: nat, q: nat)
    requires p < q <= |mid|
    ensures Stays(c, l, mid, x, p, q) <==> HasKey(At(c, l, mid, p), x) && Stays(c, l, mid, x, p + 1, q)
  {
  }

  lemma SameListIffNothingBetween<K, V>(a: seq<Slot<K, V>>, s: Slot<K, V>, b: seq<Slot<K, V>>, n: seq<Slot<K, V>>)
    requires DistinctKeys(Early(a, s, b, n))
    ensures Early(a, s, b, n) == Late(a, s, b, n) <==> b == []
  {
    if b != [] {
      PartsAreDisjoint(a, s, b, n, s.key);
      assert Early(a, s, b, n)[|a|] == s && Late(a, s, b, n)[|a|] == b[0];
      assert HasKey(b, b[0].key);
    } else {
      assert a + [s] + b == a + b + [s];
    }
  }

  // -- The exact condition --

  /** A key that stood behind `k` when operation `p` refreshed it and that then stayed to the end. */
  ghost predicate Overtakes<K, V>(c: Config, l: seq<Slot<K, V>>, mid: seq<Op<K, V>>, k: K, p: nat, x: K)
    requires p <= |mid|
  {
    Behind(At(c, l, mid, p), k, x) && Stays(c, l, mid, x, p, |mid|)
  }

  /** An atomic read at `j` explains the read exactly when nothing overtakes at the refresh after `j`. */
  lemma AtomicIffNothingOvertakes<K(!new), V>(c: Config, l: seq<Slot<K, V>>, mid: seq<Op<K, V>>, k: K, now: nat, j: nat, p: nat)
    requires Simple(c) && DistinctKeys(l) && Stays(c, l, mid, k, 0, |mid|) && FirstInsert(mid, k, j, p)
    requires SeesExpired(c, At(c, l, mid, j), k, now) && Live(c, At(c, l, mid, |mid|), k, now)
    ensures AtomicAt(c, l, mid, k, now, j) <==> !exists x :: Overtakes(c, l, mid, k, p, x)
  {
    var a, s, b, n := ReplayPair(c, l, mid, k, j, p, |mid|);
    AtIsDistinct(c, l, mid, |mid|);
    SameListIffNothingBetween(a, s, b, n);
    assert mid[..|mid|] == mid && mid[j..|mid|] == mid[j..];
    assert Apply(c, At(c, l, mid, j), Get(k, now)) == Without(At(c, l, mid, j), k);
    assert AtomicAt(c, l, mid, k, now, j) <==> Late(a, s, b, n) == Early(a, s, b, n);
    assert b == [] <==> !exists x :: HasKey(b, x) by {
      assert b != [] ==> HasKey(b, b[0].key);
    }
    assert forall x :: HasKey(b, x) <==> Overtakes(c, l, mid, k, p, x);
  }

  /** What overtakes at one refresh overtakes at every later one. */
  lemma OvertakesLater<K(!new), V>(c: Config, l: seq<Slot<K, V>>, mid: seq<Op<K, V>>, k: K, p: nat, q: nat, x: K)
    requires Simple(c) && DistinctKeys(l) && p < q <= |mid| && Stays(c, l, mid, k, 0, |mid|) && FirstInsert(mid, k, 0, p)
    requires Overtakes(c, l, mid, k, p, x)
    ensures Overtakes(c, l, mid, k, q, x)
  {
    var a, s, b, n := ReplayPair(c, l, mid, k, 0, p, q);
    BehindInEarly(a, s, b, n, x);
  }

  /** The key was refreshed, and overtaken at its first refresh. */
  ghost predicate Overtaken<K(!new), V>(c: Config, l: seq<Slot<K, V>>, mid: seq<Op<K, V>>, k: K) {
    exists p, x :: FirstInsert(mid, k, 0, p) && Overtakes(c, l, mid, k, p, x)
  }

  lemma OvertakenMeansNowhereAtomic<K(!new), V>(c: Config, l: seq<Slot<K, V>>, mid: seq<Op<K, V>>, k: K, now: nat, j: nat)
    requires Simple(c) && DistinctKeys(l) && Stays(c, l, mid, k, 0, |mid|) && j <= |mid|
    requires Live(c, At(c, l, mid, |mid|), k, now) && Overtaken(c, l, mid, k)
    ensures !AtomicAt(c, l, mid, k, now, j)
  {
    var p, x :| FirstInsert(mid, k, 0, p) && Overtakes(c, l, mid, k, p, x);
    FindMeaning(At(c, l, mid, j), k);
    assert HasKey(At(c, l, mid, j), k);
    if SeesExpired(c, At(c, l, mid, j), k, now) {
      var q := RefreshExists(c, l, mid, k, now, j);
      if p < q {
        OvertakesLater(c, l, mid, k, p, q, x);
      }
      assert Overtakes(c, l, mid, k, q, x);
      AtomicIffNothingOvertakes(c, l, mid, k, now, j, q);
    }
  }

  lemma PresentOrAbsent<K, V>(c: Config, l: seq<Slot<K, V>>, mid: seq<Op<K, V>>, k: K)
    ensures Stays(c, l, mid, k, 0, |mid|) <==> forall j: nat :: j <= |mid| ==> Find(ApplyAll(c, l, mid[..j]), k).Some?
  {
    forall j: nat | j <= |mid|
      ensures Find(ApplyAll(c, l, mid[..j]), k).Some? <==> HasKey(At(c, l, mid, j), k)
    {
      FindMeaning(At(c, l, mid, j), k);
    }
  }

  /** In a cache without a size bound the read is an atomic read at some moment between its locks if
      and only if the key is not live at the second, or was absent at some moment, or was not
      overtaken. */
  lemma AtomicSomewhereIff<K(!new), V>(c: Config, l: seq<Slot<K, V>>, mid: seq<Op<K, V>>, k: K, now: nat)
    requires c.maxCapacity.None? && c.tti.None? && DistinctKeys(l) && SeesExpired(c, l, k, now)
    ensures (exists j: nat :: j <= |mid| && AtomicAt(c, l, mid, k, now, j)) <==>
            || !Live(c, ApplyAll(c, l, mid), k, now)
            || (exists j: nat :: j <= |mid| && Find(ApplyAll(c, l, mid[..j]), k).None?)
            || !Overtaken(c, l, mid, k)
  {
    assert mid[..|mid|] == mid && mid[..0] == [];
    PresentOrAbsent(c, l, mid, k);
    if !Live(c, ApplyAll(c, l, mid), k, now) {
      AtomicAtSecondLockIffNotLive(c, l, mid, k, now);
    } else if j: nat :| j <= |mid| && Find(ApplyAll(c, l, mid[..j]), k).None? {
      AtomicWhereAbsent(c, l, mid, k, now, j);
    } else if Overtaken(c, l, mid, k) {
      forall j: nat | j <= |mid|
        ensures !AtomicAt(c, l, mid, k, now, j)
      {
        OvertakenMeansNowhereAtomic(c, l, mid, k, now, j);
      }
    } else {
      assert At(c, l, mid, 0) == l;
      var p := RefreshExists(c, l, mid, k, now, 0);
      AtomicIffNothingOvertakes(c, l, mid, k, now, 0, p);
    }
  }
}
