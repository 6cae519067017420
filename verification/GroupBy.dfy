/**
 Grouping a list by a key: what it means for groups to partition a list, and how one more
 element keeps that. `T` is the element, `K` its key, `I` the id a group keeps of it.
 */
module GroupBy {
  datatype Group<T, I> = Group(rep: T, ids: seq<I>)

  /** The elements with a key, in order. */
  function Select<T, K(==)>(items: seq<T>, k: K, key: T -> K): seq<T> {
    if items == [] then []
    else
      var last := items[|items| - 1];
      Select(items[..|items| - 1], k, key) + (if key(last) == k then [last] else [])
  }

  /** The elements without it, in order. */
  function Reject<T, K(==)>(items: seq<T>, k: K, key: T -> K): seq<T> {
    if items == [] then []
    else
      var last := items[|items| - 1];
      Reject(items[..|items| - 1], k, key) + (if key(last) == k then [] else [last])
  }

  function Ids<T, I>(items: seq<T>, id: T -> I): (ids: seq<I>)
    ensures |ids| == |items|
    ensures forall i :: 0 <= i < |items| ==> ids[i] == id(items[i])
  {
    seq(|items|, i requires 0 <= i < |items| => id(items[i]))
  }

  /** The group is headed by the first element with its key and lists the ids of all of them. */
  ghost predicate Holds<T, K, I>(items: seq<T>, g: Group<T, I>, key: T -> K, id: T -> I) {
    var members := Select(items, key(g.rep), key);
    members != [] && g.rep == members[0] && g.ids == Ids(members, id)
  }

  ghost predicate HasGroup<T, K, I>(groups: seq<Group<T, I>>, k: K, key: T -> K) {
    exists g :: 0 <= g < |groups| && key(groups[g].rep) == k
  }

  ghost predicate OneGroupPerKey<T, K, I>(groups: seq<Group<T, I>>, key: T -> K) {
    forall g, h :: 0 <= g < h < |groups| ==> key(groups[g].rep) != key(groups[h].rep)
  }

  /** One group per key, and no element without a group. */
  ghost predicate IsGrouping<T, K, I>(items: seq<T>, groups: seq<Group<T, I>>, key: T -> K, id: T -> I) {
    && OneGroupPerKey(groups, key)
    && (forall g :: 0 <= g < |groups| ==> Holds(items, groups[g], key, id))
    && (forall i :: 0 <= i < |items| ==> HasGroup(groups, key(items[i]), key))
  }

  lemma SelectSnoc<T, K>(items: seq<T>, x: T, k: K, key: T -> K)
    ensures Select(items + [x], k, key) == Select(items, k, key) + (if key(x) == k then [x] else [])
    ensures Reject(items + [x], k, key) == Reject(items, k, key) + (if key(x) == k then [] else [x])
  {
  }

  lemma {:induction false} SelectMembers<T, K>(items: seq<T>, k: K, key: T -> K)
    ensures forall i :: 0 <= i < |Select(items, k, key)| ==>
              Select(items, k, key)[i] in items && key(Select(items, k, key)[i]) == k
    ensures forall i :: 0 <= i < |Reject(items, k, key)| ==>
              Reject(items, k, key)[i] in items && key(Reject(items, k, key)[i]) != k
    ensures Select(items, k, key) == [] ==> forall i :: 0 <= i < |items| ==> key(items[i]) != k
  {
    if items == [] {
    } else {
      SelectMembers(items[..|items| - 1], k, key);
    }
  }

  lemma {:induction false} AbsentKey<T, K>(items: seq<T>, k: K, key: T -> K)
    requires forall i :: 0 <= i < |items| ==> key(items[i]) != k
    ensures Select(items, k, key) == []
  {
    if items == [] {
    } else {
      AbsentKey(items[..|items| - 1], k, key);
    }
  }

  lemma {:induction false} SelectRejected<T, K>(items: seq<T>, gone: K, k: K, key: T -> K)
    requires gone != k
    ensures Select(Reject(items, gone, key), k, key) == Select(items, k, key)
  {
    if items == [] {
    } else {
      var init, last := items[..|items| - 1], items[|items| - 1];
      SelectRejected(init, gone, k, key);
      if key(last) != gone {
        SelectSnoc(Reject(init, gone, key), last, k, key);
      } else {
        assert Reject(items, gone, key) == Reject(init, gone, key);
      }
    }
  }

  function Push<T, I>(groups: seq<Group<T, I>>, g: nat, i: I): (r: seq<Group<T, I>>)
    requires g < |groups|
  {
    groups[g := groups[g].(ids := groups[g].ids + [i])]
  }

  lemma PushHolds<T, K, I>(items: seq<T>, x: T, g: Group<T, I>, key: T -> K, id: T -> I)
    requires Holds(items, g, key, id)
    ensures Holds(items + [x], g.(ids := g.ids + if key(x) == key(g.rep) then [id(x)] else []), key, id)
  {
  }

  /** The loop's first branch: the key has a group. */
  lemma OccupiedKeepsGrouping<T, K, I>(items: seq<T>, x: T, groups: seq<Group<T, I>>, g: nat, key: T -> K, id: T -> I)
    requires IsGrouping(items, groups, key, id)
    requires g < |groups| && key(groups[g].rep) == key(x)
    ensures IsGrouping(items + [x], Push(groups, g, id(x)), key, id)
  {
    var after := Push(groups, g, id(x));
    forall h | 0 <= h < |after|
      ensures Holds(items + [x], after[h], key, id)
    {
      PushHolds(items, x, groups[h], key, id);
      assert h != g ==> key(groups[h].rep) != key(groups[g].rep);
      assert h != g ==> groups[h].(ids := groups[h].ids + []) == groups[h];
    }
    forall i | 0 <= i < |items + [x]|
      ensures HasGroup(after, key((items + [x])[i]), key)
    {
      SameKeys(groups, after, key((items + [x])[i]), key);
    }
  }

  lemma SameKeys<T, K, I>(groups: seq<Group<T, I>>, after: seq<Group<T, I>>, k: K, key: T -> K)
    requires |groups| <= |after| && forall h :: 0 <= h < |groups| ==> after[h].rep == groups[h].rep
    requires HasGroup(groups, k, key)
    ensures HasGroup(after, k, key)
  {
  }

  /** The loop's second branch: the key is new. */
  lemma VacantKeepsGrouping<T, K, I>(items: seq<T>, x: T, groups: seq<Group<T, I>>, key: T -> K, id: T -> I)
    requires IsGrouping(items, groups, key, id) && !HasGroup(groups, key(x), key)
    ensures IsGrouping(items + [x], groups + [Group(x, [id(x)])], key, id)
  {
    var after := groups + [Group(x, [id(x)])];
    forall h | 0 <= h < |groups|
      ensures Holds(items + [x], after[h], key, id)
    {
      PushHolds(items, x, groups[h], key, id);
      assert groups[h].(ids := groups[h].ids + []) == groups[h];
    }
    AbsentKey(items, key(x), key);
    SelectSnoc(items, x, key(x), key);
    assert after[|groups|].rep == x;
    forall i | 0 <= i < |items|
      ensures HasGroup(after, key(items[i]), key)
    {
      SameKeys(groups, after, key(items[i]), key);
    }
  }

  /** Without the elements of the last group, the other groups partition the rest. */
  lemma RestIsGrouped<T, K, I>(items: seq<T>, groups: seq<Group<T, I>>, key: T -> K, id: T -> I)
    requires IsGrouping(items, groups, key, id) && groups != []
    ensures var last := groups[|groups| - 1];
            IsGrouping(Reject(items, key(last.rep), key), groups[..|groups| - 1], key, id)
  {
    var init, gone := groups[..|groups| - 1], key(groups[|groups| - 1].rep);
    var rest := Reject(items, gone, key);
    forall g | 0 <= g < |init|
      ensures Holds(rest, init[g], key, id)
    {
      SelectRejected(items, gone, key(init[g].rep), key);
      assert Holds(items, groups[g], key, id);
    }
    SelectMembers(items, gone, key);
    forall i | 0 <= i < |rest|
      ensures HasGroup(init, key(rest[i]), key)
    {
      var at :| 0 <= at < |items| && items[at] == rest[i];
      assert HasGroup(groups, key(items[at]), key);
      var g :| 0 <= g < |groups| && key(groups[g].rep) == key(rest[i]);
      assert key(init[g].rep) == key(rest[i]);
    }
  }

  // -- The loop --

  /** The index maps exactly the keys of the groups so far to their positions. */
  ghost predicate Indexes<T, K, I>(index: map<K, nat>, groups: seq<Group<T, I>>, key: T -> K) {
    && (forall k :: k in index ==> index[k] < |groups| && key(groups[index[k]].rep) == k)
    && (forall g :: 0 <= g < |groups| ==> key(groups[g].rep) in index)
  }

  /** Groups a list in one pass, finding each element's group through a hash index. */
  method GroupItems<T, K(==), I>(items: seq<T>, key: T -> K, id: T -> I) returns (groups: seq<Group<T, I>>)
    ensures IsGrouping(items, groups, key, id)
  {
    var index: map<K, nat> := map[];
    groups := [];
    for i := 0 to |items|
      invariant Indexes(index, groups, key)
      invariant IsGrouping(items[..i], groups, key, id)
    {
      var x := items[i];
      assert items[..i + 1] == items[..i] + [x];
      if key(x) in index {
        OccupiedKeepsGrouping(items[..i], x, groups, index[key(x)], key, id);
        groups := Push(groups, index[key(x)], id(x));
      } else {
        VacantKeepsGrouping(items[..i], x, groups, key, id);
        index := index[key(x) := |groups|];
        groups := groups + [Group(x, [id(x)])];
      }
    }
    assert items[..|items|] == items;
  }

  // -- Counting --

  /** How often each value of `f` occurs among the elements. */
  ghost function Tally<T, P>(items: seq<T>, f: T -> P): multiset<P> {
    if items == [] then multiset{}
    else Tally(items[..|items| - 1], f) + multiset{f(items[|items| - 1])}
  }

  lemma TallySnoc<T, P>(items: seq<T>, x: T, f: T -> P)
    ensures Tally(items + [x], f) == Tally(items, f) + multiset{f(x)}
  {
  }

  /** Adding one more to either part of a sum adds it to the sum. */
  lemma SumGrows<P>(a: multiset<P>, b: multiset<P>, x: P)
    ensures a + multiset{x} + b == a + b + multiset{x}
    ensures a + (b + multiset{x}) == a + b + multiset{x}
  {
  }

  lemma {:induction false} TallySplits<T, K, P>(items: seq<T>, k: K, key: T -> K, f: T -> P)
    ensures Tally(items, f) == Tally(Select(items, k, key), f) + Tally(Reject(items, k, key), f)
  {
    if items == [] {
    } else {
      var init, last := items[..|items| - 1], items[|items| - 1];
      var chosen, rest := Select(init, k, key), Reject(init, k, key);
      TallySplits(init, k, key, f);
      SumGrows(Tally(chosen, f), Tally(rest, f), f(last));
      if key(last) == k {
        TallySnoc(chosen, last, f);
        assert Select(items, k, key) == chosen + [last] && Reject(items, k, key) == rest;
      } else {
        TallySnoc(rest, last, f);
        assert Select(items, k, key) == chosen && Reject(items, k, key) == rest + [last];
      }
    }
  }
}
