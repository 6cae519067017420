/**
 A read without idle expiry takes two locks: a shared one to look, and, when it saw an expired
 entry, an exclusive one to drop the key if it is still expired then. Between the two anything
 may run. This says when such a read is one atomic read, and what an entry's life is.
 */
module TwoLockRead {
  import opened FifoList
  import opened Options

  // -- Expiry --

  /** An entry is live exactly before its deadlines, if a deadline is ahead at all: so an entry once
      expired stays expired until it is written or touched again. */
  lemma LiveUntilDeadline<K, V>(c: Config, slot: Slot<K, V>, now: nat, later: nat)
    requires now <= later
    ensures !Expired(c, slot, now) <==>
            && (c.ttl.Some? ==> c.ttl.value > 0 && now < slot.insertedAt + c.ttl.value)
            && (c.tti.Some? ==> c.tti.value > 0 && now < slot.lastAccessedAt + c.tti.value)
    ensures Expired(c, slot, now) ==> Expired(c, slot, later)
  {
  }

  // -- The two-lock read --

  predicate SeesExpired<K(==), V>(c: Config, l: seq<Slot<K, V>>, k: K, now: nat) {
    Find(l, k).Some? && Expired(c, Find(l, k).value, now)
  }

  predicate Live<K(==), V>(c: Config, l: seq<Slot<K, V>>, k: K, now: nat) {
    Find(l, k).Some? && !Expired(c, Find(l, k).value, now)
  }

  /** The list after a read that looked at `l`, saw an expired entry, and got its second lock after
      `mid`. */
  function AfterRead<K(==), V>(c: Config, l: seq<Slot<K, V>>, mid: seq<Op<K, V>>, k: K, now: nat): seq<Slot<K, V>> {
    Apply(c, ApplyAll(c, l, mid), DropExpired(k, now))
  }

  /** An atomic read of the key, after the first `j` operations of `mid`, would have answered nothing
      and led to the same list. */
  predicate AtomicAt<K(==), V(==)>(c: Config, l: seq<Slot<K, V>>, mid: seq<Op<K, V>>, k: K, now: nat, j: nat)
    requires j <= |mid|
  {
    var there := ApplyAll(c, l, mid[..j]);
    && Answer(c, there, Op<K, V>.Get(k, now)) == None
    && ApplyAll(c, Apply(c, there, Get(k, now)), mid[j..]) == AfterRead(c, l, mid, k, now)
  }

  /** Whatever runs between the locks, the read answers nothing and drops at most its key. It is an
      atomic read at its second lock if and only if the key is not live by then; when it is, it
      leaves the list as `mid` did. */
  lemma AtomicAtSecondLockIffNotLive<K, V>(c: Config, l: seq<Slot<K, V>>, mid: seq<Op<K, V>>, k: K, now: nat)
    requires c.tti.None? && SeesExpired(c, l, k, now)
    ensures Answer(c, l, Op<K, V>.Get(k, now)) == None
    ensures AtomicAt(c, l, mid, k, now, |mid|) <==> !Live(c, ApplyAll(c, l, mid), k, now)
    ensures Live(c, ApplyAll(c, l, mid), k, now) ==> AfterRead(c, l, mid, k, now) == ApplyAll(c, l, mid)
  {
    assert mid[..|mid|] == mid && mid[|mid|..] == [];
  }

  lemma {:induction false} ApplyAllAppend<K, V>(c: Config, l: seq<Slot<K, V>>, a: seq<Op<K, V>>, b: seq<Op<K, V>>)
    ensures ApplyAll(c, l, a + b) == ApplyAll(c, ApplyAll(c, l, a), b)
    decreases |b|
  {
    if b == [] {
      assert a + b == a;
    } else {
      var n := |b| - 1;
      assert (a + b)[..|a + b| - 1] == a + b[..n];
      ApplyAllAppend(c, l, a, b[..n]);
    }
  }

  /** If the key is live at the second lock but was absent at some moment in between, the read is an
      atomic miss at that moment. */
  lemma AtomicWhereAbsent<K, V>(c: Config, l: seq<Slot<K, V>>, mid: seq<Op<K, V>>, k: K, now: nat, j: nat)
    requires c.tti.None? && j <= |mid| && Live(c, ApplyAll(c, l, mid), k, now)
    requires Find(ApplyAll(c, l, mid[..j]), k).None?
    ensures AtomicAt(c, l, mid, k, now, j)
  {
    assert mid == mid[..j] + mid[j..];
    ApplyAllAppend(c, l, mid[..j], mid[j..]);
  }

  /** Otherwise there may be no such moment: with time to live 1 and [a, b] both inserted at 0, a read
      of `a` at 1 sees it expired, an insert of `a` refreshes it in place, and the read then answers
      nothing and drops nothing. An atomic read before the insert would have moved `a` behind `b`;
      one after it would have found the new value. */
  lemma RefreshedBetweenIsNotAtomic<V>(old0: V, new0: V)
    ensures var c := Config(None, Some(1), None);
            var l := [Slot("a", old0, 0, 0), Slot("b", old0, 0, 0)];
            var mid := [Insert("a", new0, 1)];
            && SeesExpired(c, l, "a", 1)
            && AfterRead(c, l, mid, "a", 1) == [Slot("a", new0, 1, 1), Slot("b", old0, 0, 0)]
            && forall j: nat :: j <= 1 ==> !AtomicAt(c, l, mid, "a", 1, j)
  {
    var c := Config(None, Some(1), None);
    var a, b := Slot("a", old0, 0, 0), Slot("b", old0, 0, 0);
    var l := [a, b];
    var mid := [Insert("a", new0, 1)];
    assert l[..1] == [a] && [a][..0] == [] && mid[..0] == [] && mid[1..] == [] && mid[..1] == mid && mid[0..] == mid;
    assert Find([a], "a") == Some(a) && Find(l, "a") == Some(a);
    var refreshed := [Slot("a", new0, 1, 1), b];
    assert Refresh(l, Slot("a", new0, 1, 1)) == refreshed;
    assert ApplyAll(c, l, mid) == refreshed;
    assert refreshed[..1] == [refreshed[0]] && [refreshed[0]][..0] == [];
    assert Find(refreshed, "a") == Some(refreshed[0]);
    AtomicAtSecondLockIffNotLive(c, l, mid, "a", 1);
    WithoutHead(l);
    assert Without(l, "a") == [b];
    assert [b][..0] == [] && Find([b], "a") == None;
    assert ApplyAll(c, [b], mid) == [b, refreshed[0]];
    assert [b, refreshed[0]][0] != refreshed[0];
  }
}
