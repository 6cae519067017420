/**
 Waiters for incoming nodes: one sweep over the list removes cancelled waiters and delivers the
 node to the live ones it matches, swapping the last waiter into each freed place. A waiter may
 be cancelled at any moment of the sweep; the sweep looks at each waiter once.
 */
module NodeWaiters {
  datatype Node = Node(tag: string, attrs: map<string, string>)

  /** Every listed attribute must be present with the listed value. */
  datatype Filter = Filter(tag: string, attrs: seq<(string, string)>)

  datatype Waiter = Waiter(id: nat, filter: Filter)

  predicate Matches(f: Filter, node: Node) {
    && node.tag == f.tag
    && forall i :: 0 <= i < |f.attrs| ==> f.attrs[i].0 in node.attrs && node.attrs[f.attrs[i].0] == f.attrs[i].1
  }

  /** A filter for nodes with a tag. */
  function ForTag(tag: string): Filter {
    Filter(tag, [])
  }

  /** The filter with one more attribute constraint. */
  function WithAttr(f: Filter, key: string, value: string): Filter {
    Filter(f.tag, f.attrs + [(key, value)])
  }

  /** What a filter as callers build them matches: a plain one the nodes of its tag, and each
      constraint narrows that to the nodes that have the attribute with the value. */
  lemma ConstraintNarrows(f: Filter, node: Node, tag: string, key: string, value: string)
    ensures Matches(ForTag(tag), node) <==> node.tag == tag
    ensures Matches(WithAttr(f, key, value), node) <==>
            Matches(f, node) && key in node.attrs && node.attrs[key] == value
  {
    var g := WithAttr(f, key, value);
    assert g.attrs[|f.attrs|] == (key, value);
    assert forall i :: 0 <= i < |f.attrs| ==> g.attrs[i] == f.attrs[i];
  }

  /** Which waiters are cancelled when the sweep takes its n-th look. */
  type Cancellation = (Waiter, nat) -> bool

  /** A cancelled waiter stays cancelled. */
  ghost predicate Lasting(canceled: Cancellation) {
    forall w, m, n :: m <= n && canceled(w, m) ==> canceled(w, n)
  }

  /** Removes an element, putting the last one in its place. */
  function SwapRemove(ws: seq<Waiter>, i: nat): (r: seq<Waiter>)
    requires i < |ws|
    ensures |r| == |ws| - 1 && r[..i] == ws[..i]
    ensures multiset(r) + multiset{ws[i]} == multiset(ws)
  {
    var last := |ws| - 1;
    if i == last then
      assert ws == ws[..last] + [ws[last]];
      ws[..last]
    else
      assert ws == ws[..i] + [ws[i]] + ws[i + 1..last] + [ws[last]];
      ws[..i] + [ws[last]] + ws[i + 1..last]
  }

  /** What a sweep promises for each waiter, listed any number of times: never both kept and
      delivered to; kept only if it does not match, delivered to only if it does; neither if it was
      cancelled from the start, and one of the two, every time it is listed, if it was not
      cancelled by the end. */
  ghost predicate Swept(all: seq<Waiter>, kept: seq<Waiter>, delivered: seq<Waiter>, canceled: Cancellation, node: Node) {
    forall w :: SweptOne(w, multiset(all)[w], multiset(kept)[w], multiset(delivered)[w], canceled(w, 0), canceled(w, |all|), node)
  }

  predicate SweptOne(w: Waiter, listed: nat, kept: nat, delivered: nat, before: bool, after: bool, node: Node) {
    && kept + delivered <= listed
    && (if Matches(w.filter, node) then kept == 0 else delivered == 0)
    && (before ==> kept == 0 && delivered == 0)
    && (!after ==> kept + delivered == listed)
  }

  // -- The loop --

  ghost predicate AllMatch(ws: seq<Waiter>, canceled: Cancellation, node: Node) {
    forall j :: 0 <= j < |ws| ==> Matches(ws[j].filter, node) && !canceled(ws[j], 0)
  }

  ghost predicate AllStay(ws: seq<Waiter>, canceled: Cancellation, node: Node) {
    forall j :: 0 <= j < |ws| ==> !Matches(ws[j].filter, node) && !canceled(ws[j], 0)
  }

  ghost predicate AllCanceled(ws: seq<Waiter>, canceled: Cancellation, end: nat) {
    forall j :: 0 <= j < |ws| ==> canceled(ws[j], end)
  }

  /** One sweep: the waiters it starts with, the node, and when waiters are cancelled. */
  datatype Sweep = Sweep(all: seq<Waiter>, node: Node, canceled: Cancellation)

  /** The loop invariant: nothing is lost, the first `i` waiters stay, and what was taken out was
      delivered to or cancelled. */
  ghost predicate Progress(w: Sweep, ws: seq<Waiter>, i: nat, delivered: seq<Waiter>, dropped: seq<Waiter>) {
    && multiset(ws) + multiset(delivered) + multiset(dropped) == multiset(w.all)
    && i <= |ws| <= |w.all|
    && AllStay(ws[..i], w.canceled, w.node) && AllMatch(delivered, w.canceled, w.node)
    && AllCanceled(dropped, w.canceled, |w.all|)
  }

  /** The number of looks taken: one for every waiter kept or taken out. */
  function Looks(w: Sweep, ws: seq<Waiter>, i: nat): int {
    |w.all| - |ws| + i
  }

  lemma Kept(w: Sweep, ws: seq<Waiter>, i: nat, delivered: seq<Waiter>, dropped: seq<Waiter>)
    requires Progress(w, ws, i, delivered, dropped) && Lasting(w.canceled)
    requires i < |ws| && !Matches(ws[i].filter, w.node) && !w.canceled(ws[i], Looks(w, ws, i))
    ensures Progress(w, ws, i + 1, delivered, dropped)
  {
    assert ws[..i + 1] == ws[..i] + [ws[i]];
  }

  lemma Dropped(w: Sweep, ws: seq<Waiter>, i: nat, delivered: seq<Waiter>, dropped: seq<Waiter>)
    requires Progress(w, ws, i, delivered, dropped) && Lasting(w.canceled)
    requires i < |ws| && w.canceled(ws[i], Looks(w, ws, i))
    ensures Progress(w, SwapRemove(ws, i), i, delivered, dropped + [ws[i]])
  {
  }

  lemma Delivered(w: Sweep, ws: seq<Waiter>, i: nat, delivered: seq<Waiter>, dropped: seq<Waiter>)
    requires Progress(w, ws, i, delivered, dropped) && Lasting(w.canceled)
    requires i < |ws| && !w.canceled(ws[i], Looks(w, ws, i)) && Matches(ws[i].filter, w.node)
    ensures Progress(w, SwapRemove(ws, i), i, delivered + [ws[i]], dropped)
  {
  }

  /** A split of the waiters by kind is determined count by count. */
  lemma SortedOut(w: Sweep, kept: seq<Waiter>, delivered: seq<Waiter>, dropped: seq<Waiter>)
    requires Progress(w, kept, |kept|, delivered, dropped)
    ensures Swept(w.all, kept, delivered, w.canceled, w.node)
  {
    assert kept[..|kept|] == kept;
    forall x: Waiter
      ensures SweptOne(x, multiset(w.all)[x], multiset(kept)[x], multiset(delivered)[x],
                       w.canceled(x, 0), w.canceled(x, |w.all|), w.node)
    {
      assert multiset(w.all)[x] == multiset(kept)[x] + multiset(delivered)[x] + multiset(dropped)[x];
      assert x in multiset(kept) ==> x in kept;
      assert x in multiset(delivered) ==> x in delivered;
      assert x in multiset(dropped) ==> x in dropped;
    }
  }

  class NodeWaiters {
    var waiters: seq<Waiter>
    var counter: nat

    ghost predicate Valid()
      reads this
    {
      counter == |waiters|
    }

    /** `swap_remove` and the decrement that follows it. */
    method RemoveAt(i: nat) returns (w: Waiter)
      requires Valid() && i < |waiters|
      modifies this
      ensures Valid() && waiters == SwapRemove(old(waiters), i) && w == old(waiters)[i]
    {
      w := waiters[i];
      waiters := SwapRemove(waiters, i);
      counter := counter - 1;
    }

    /** Looks at one waiter: keeps it and moves on, or takes it out. */
    method Examine(i: nat, looks: nat, delivered: seq<Waiter>, ghost dropped: seq<Waiter>, ghost sweep: Sweep,
                   node: Node, canceled: Cancellation)
      returns (i': nat, delivered': seq<Waiter>, ghost dropped': seq<Waiter>)
      requires Valid() && i < |waiters| && Progress(sweep, waiters, i, delivered, dropped)
      requires sweep.node == node && sweep.canceled == canceled && Lasting(canceled) && looks == Looks(sweep, waiters, i)
      modifies this
      ensures Valid() && Progress(sweep, waiters, i', delivered', dropped')
      ensures |waiters| - i' == old(|waiters|) - i - 1
    {
      i', delivered', dropped' := i, delivered, dropped;
      if canceled(waiters[i], looks) {
        Dropped(sweep, waiters, i, delivered, dropped);
        var w := RemoveAt(i);
        dropped' := dropped + [w];
      } else if Matches(waiters[i].filter, node) {
        Delivered(sweep, waiters, i, delivered, dropped);
        var w := RemoveAt(i);
        delivered' := delivered + [w];
      } else {
        Kept(sweep, waiters, i, delivered, dropped);
        i' := i + 1;
      }
    }

    /** Sweeps the list, keeping the counter equal to its length. */
    method Resolve(node: Node, canceled: Cancellation) returns (delivered: seq<Waiter>)
      requires Valid() && Lasting(canceled)
      modifies this
      ensures Valid() && Swept(old(waiters), waiters, delivered, canceled, node)
    {
      delivered := [];
      ghost var sweep := Sweep(waiters, node, canceled);
      ghost var dropped: seq<Waiter> := [];
      var i: nat, looks: nat := 0, 0;
      while i < |waiters|
        invariant Valid() && Progress(sweep, waiters, i, delivered, dropped)
        invariant looks == Looks(sweep, waiters, i)
        decreases |waiters| - i
      {
        i, delivered, dropped := Examine(i, looks, delivered, dropped, sweep, node, canceled);
        looks := looks + 1;
      }
      SortedOut(sweep, waiters, delivered, dropped);
    }
  }
}
