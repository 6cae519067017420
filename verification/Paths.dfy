/** Finite paths of a step relation. */
module Paths {
  ghost predicate IsPath<S>(path: seq<S>, s: S, step: (S, S) -> bool) {
    && |path| > 0 && path[0] == s
    && forall i :: 0 < i < |path| ==> step(path[i - 1], path[i])
  }

  lemma Extended<S>(path: seq<S>, s: S, next: S, step: (S, S) -> bool) returns (longer: seq<S>)
    requires IsPath(path, s, step) && step(path[|path| - 1], next)
    ensures longer == path + [next] && IsPath(longer, s, step)
  {
    longer := path + [next];
    assert forall i :: 0 < i < |path| ==> step(longer[i - 1], longer[i]);
  }

  lemma Joined<S>(path: seq<S>, s: S, rest: seq<S>, step: (S, S) -> bool) returns (longer: seq<S>)
    requires IsPath(path, s, step) && IsPath(rest, path[|path| - 1], step)
    ensures IsPath(longer, s, step) && longer[|longer| - 1] == rest[|rest| - 1]
  {
    longer := path + rest[1..];
    forall i | 0 < i < |longer|
      ensures step(longer[i - 1], longer[i])
    {
      if i < |path| {
        assert step(path[i - 1], path[i]);
      } else {
        var j := i - |path| + 1;
        assert longer[i] == rest[j] && longer[i - 1] == rest[j - 1];
        assert step(rest[j - 1], rest[j]);
      }
    }
  }

  lemma Tail<S>(path: seq<S>, s: S, step: (S, S) -> bool) returns (rest: seq<S>)
    requires IsPath(path, s, step) && |path| > 1
    ensures |rest| == |path| - 1 && rest[|rest| - 1] == path[|path| - 1]
    ensures step(s, rest[0]) && IsPath(rest, rest[0], step)
  {
    rest := path[1..];
    forall i | 0 < i < |rest|
      ensures step(rest[i - 1], rest[i])
    {
      assert step(path[i + 1 - 1], path[i + 1]);
    }
    assert step(path[1 - 1], path[1]);
  }
}
