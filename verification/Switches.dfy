/** A flag that some steps raise and others lower. */
module Switches {
  /** Step `i` raised it, and none since has lowered it. */
  ghost predicate LastRaise(up: nat -> bool, down: nat -> bool, i: nat, n: nat) {
    i < n && up(i) && forall k: nat :: i < k < n ==> !down(k)
  }

  ghost predicate Tracks(flag: nat -> bool, up: nat -> bool, down: nat -> bool, n: nat) {
    && !flag(0)
    && forall i: nat :: i < n ==> (flag(i + 1) <==> up(i) || (flag(i) && !down(i)))
  }

  lemma {:induction false} RaisedHasRaise(flag: nat -> bool, up: nat -> bool, down: nat -> bool, n: nat) returns (i: nat)
    requires Tracks(flag, up, down, n) && flag(n)
    ensures LastRaise(up, down, i, n)
    decreases n
  {
    assert flag(n - 1 + 1);
    if up(n - 1) {
      i := n - 1;
    } else {
      i := RaisedHasRaise(flag, up, down, n - 1);
    }
  }

  lemma {:induction false} RaiseLasts(flag: nat -> bool, up: nat -> bool, down: nat -> bool, i: nat, n: nat)
    requires Tracks(flag, up, down, n) && LastRaise(up, down, i, n)
    ensures flag(n)
    decreases n
  {
    assert flag(n) == flag(n - 1 + 1);
    if i == n - 1 {
    } else {
      RaiseLasts(flag, up, down, i, n - 1);
    }
  }

  /** The last of the first `n` steps to move the flag raised it. */
  ghost predicate RaisedLast(up: nat -> bool, down: nat -> bool, n: nat) {
    exists i: nat :: LastRaise(up, down, i, n)
  }

  /** It is up if and only if the last step to move it raised it. */
  lemma UpIffLastRaised(flag: nat -> bool, up: nat -> bool, down: nat -> bool, n: nat)
    requires Tracks(flag, up, down, n)
    ensures flag(n) <==> RaisedLast(up, down, n)
  {
    if flag(n) {
      var _ := RaisedHasRaise(flag, up, down, n);
    }
    if i: nat :| LastRaise(up, down, i, n) {
      RaiseLasts(flag, up, down, i, n);
    }
  }
}
