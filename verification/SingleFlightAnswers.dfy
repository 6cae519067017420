/**
 What a `get_with` call returns and leaves behind in every run, disturbed or not: a cached value at
 once, the value the cache held at some moment of the call, or the value of its own initializer; and
 its init lock goes with the last caller.
 */
module SingleFlightAnswers {
  import opened Options
  import opened SingleFlight

  // -- What counts as a disturbance --

  /** The entry of the key is removed, expired, evicted or overwritten from outside. */
  ghost predicate Disturbs<K, V>(a: Action<K, V>, k: K) {
    match a
    case RemoveEntry(gone) => gone == k
    case Overwrite(over, _) => over == k
    case Store(_, evicted) => k in evicted
    case _ => false
  }

  ghost predicate DisturbedAt<K(!new), V(!new)>(run: seq<State<K, V>>, i: nat, k: K) {
    i + 1 < |run| && exists a :: Enabled(run[i], a) && run[i + 1] == Step(run[i], a) && Disturbs(a, k)
  }

  lemma FollowDisturbs<K(!new), V(!new)>(run: seq<State<K, V>>, i: nat, k: K)
    requires IsRun(run) && i + 1 < |run|
    ensures k in run[i + 1].disturbed <==> k in run[i].disturbed || DisturbedAt(run, i, k)
  {
    assert Follows(run[i + 1 - 1], run[i + 1]);
  }

  /** A key counts as disturbed if and only if something outside took its entry or wrote it. */
  lemma {:induction false} DisturbedIffTouched<K(!new), V(!new)>(run: seq<State<K, V>>, n: nat, k: K)
    requires IsRun(run) && n < |run|
    ensures k in run[n].disturbed <==> exists i: nat :: i < n && DisturbedAt(run, i, k)
    decreases n
  {
    if n == 0 {
    } else {
      DisturbedIffTouched(run, n - 1, k);
      FollowDisturbs(run, n - 1, k);
    }
  }

  // -- The fast path --

  /** A call whose key is cached when it looks returns that value at once; otherwise it goes on. */
  lemma HitReturnsAtOnce<K(!new), V(!new)>(run: seq<State<K, V>>, i: nat, t: nat)
    requires IsRun(run) && i + 1 < |run| && At(run[i], t, Peeking)
    requires t in run[i + 1].tasks && run[i + 1].tasks[t] != run[i].tasks[t] && !run[i + 1].tasks[t].pc.Cancelled?
    ensures var k, task := run[i].tasks[t].key, run[i + 1].tasks[t];
            && task.ran == run[i].tasks[t].ran
            && if k in run[i].cache then task.pc == Done && task.value == Some(run[i].cache[k])
               else task.pc == Missed && task.value == run[i].tasks[t].value
  {
    assert Follows(run[i + 1 - 1], run[i + 1]);
  }

  // -- Where a returned value comes from --

  /** The cache held the value when the call was under way. */
  ghost predicate HeldAt<K, V>(run: seq<State<K, V>>, j: nat, t: nat, v: V) {
    && j < |run| && t in run[j].tasks
    && run[j].tasks[t].key in run[j].cache && run[j].cache[run[j].tasks[t].key] == v
  }

  ghost predicate ProducedAt<K(!new), V(!new)>(run: seq<State<K, V>>, j: nat, t: nat, v: V) {
    j + 1 < |run| && Enabled(run[j], Produce(t, v)) && run[j + 1] == Step(run[j], Produce(t, v))
  }

  /** Looked up, or computed by the call itself. */
  ghost predicate Accounted<K(!new), V(!new)>(run: seq<State<K, V>>, i: nat, t: nat, v: V) {
    exists j: nat :: j < i && (HeldAt(run, j, t, v) || ProducedAt(run, j, t, v))
  }

  /** One step of a call that ends with a value: it had it, or it looks it up, or it computes it. */
  lemma StepAccounts<K, V>(s: State<K, V>, a: Action<K, V>, t: nat)
    requires Enabled(s, a) && t in Step(s, a).tasks && Step(s, a).tasks[t].value.Some?
    ensures var v := Step(s, a).tasks[t].value.value;
            || (t in s.tasks && s.tasks[t].value == Some(v))
            || (t in s.tasks && s.tasks[t].key in s.cache && s.cache[s.tasks[t].key] == v)
            || a == Produce(t, v)
  {
  }

  lemma FollowAccounts<K(!new), V(!new)>(run: seq<State<K, V>>, i: nat, t: nat, v: V)
    requires IsRun(run) && i + 1 < |run| && Had(run[i + 1], t, v)
    ensures Had(run[i], t, v) || HeldAt(run, i, t, v) || ProducedAt(run, i, t, v)
  {
    assert Follows(run[i + 1 - 1], run[i + 1]);
    var a :| Enabled(run[i], a) && run[i + 1] == Step(run[i], a);
    StepAccounts(run[i], a, t);
  }

  ghost predicate Had<K, V>(s: State<K, V>, t: nat, v: V) {
    t in s.tasks && s.tasks[t].value == Some(v)
  }

  /** Every value a call has, and so every value it returns, is one the cache held for its key at some
      moment of the call, or the one its own initializer produced. */
  lemma {:induction false} AnswerIsAccounted<K(!new), V(!new)>(run: seq<State<K, V>>, i: nat, t: nat, v: V)
    requires IsRun(run) && i < |run| && Had(run[i], t, v)
    ensures Accounted(run, i, t, v)
    decreases i
  {
    var j := i - 1;
    FollowAccounts(run, j, t, v);
    if Had(run[j], t, v) {
      AnswerIsAccounted(run, j, t, v);
    } else {
      assert HeldAt(run, j, t, v) || ProducedAt(run, j, t, v);
    }
  }

  // -- Caching off --

  ghost predicate Uncached<K, V>(s: State<K, V>, k: K) {
    && k !in s.cache
    && forall t :: t in s.tasks && s.tasks[t].key == k && Settled(s.tasks[t].pc) ==> s.tasks[t].ran
  }

  ghost predicate RanOk<K, V>(s: State<K, V>) {
    forall t :: t in s.tasks && Running(s.tasks[t].pc) ==> s.tasks[t].ran
  }

  lemma StepKeepsRan<K, V>(s: State<K, V>, a: Action<K, V>)
    requires Enabled(s, a) && RanOk(s)
    ensures RanOk(Step(s, a))
  {
  }

  lemma StepKeepsUncached<K, V>(s: State<K, V>, a: Action<K, V>, k: K)
    requires Enabled(s, a) && s.disabled && RanOk(s) && Uncached(s, k) && k !in Step(s, a).disturbed
    ensures Uncached(Step(s, a), k)
  {
  }

  ghost predicate Off<K, V>(s: State<K, V>, k: K) {
    s.disabled && RanOk(s) && Uncached(s, k)
  }

  lemma FollowKeepsUncached<K(!new), V(!new)>(run: seq<State<K, V>>, i: nat, k: K)
    requires IsRun(run) && i + 1 < |run| && k !in run[i + 1].disturbed
    ensures k !in run[i].disturbed && (Off(run[i], k) ==> Off(run[i + 1], k))
  {
    assert Follows(run[i + 1 - 1], run[i + 1]);
    var a :| Enabled(run[i], a) && run[i + 1] == Step(run[i], a);
    if Off(run[i], k) {
      StepKeepsRan(run[i], a);
      StepKeepsUncached(run[i], a, k);
    }
  }

  lemma {:induction false} DisabledStays<K(!new), V(!new)>(run: seq<State<K, V>>, i: nat, k: K)
    requires IsRun(run) && i < |run| && run[0].disabled && k !in run[i].disturbed
    ensures Off(run[i], k)
    decreases i
  {
    if i == 0 {
    } else {
      FollowKeepsUncached(run, i - 1, k);
      DisabledStays(run, i - 1, k);
    }
  }

  /** With caching off nothing is cached, and every call that returns ran its own initializer. */
  lemma DisabledCallsRunThemselves<K(!new), V(!new)>(run: seq<State<K, V>>, i: nat, t: nat)
    requires IsRun(run) && i < |run| && run[0].disabled && At(run[i], t, Done)
    requires run[i].tasks[t].key !in run[i].disturbed
    ensures run[i].tasks[t].ran && run[i].tasks[t].key !in run[i].cache
  {
    DisabledStays(run, i, run[i].tasks[t].key);
  }

  // -- The init lock goes with its last user --

  lemma CountedAlone<K, V>(s: State<K, V>, t: nat)
    requires LocksOk(s) && RefsOk(s) && At(s, t, Reclaiming)
    ensures Reclaims(s, t) <==> Clones(s, s.tasks[t].lock) == {t}
  {
    var l := s.tasks[t].lock;
    assert TaskLockOk(s, s.tasks[t]) && RefOk(s, l) && Mapped(s, l);
    assert t in Clones(s, l);
    if |Clones(s, l)| <= 1 {
      OnlyMember(Clones(s, l), t);
    }
  }

  /** In every reachable state, a caller that reclaims leaves no init lock for its key if and only if
      no other caller has a clone of it; otherwise the lock stays for them. */
  lemma LockGoesWithLastUser<K(!new), V(!new)>(run: seq<State<K, V>>, i: nat, t: nat)
    requires IsRun(run) && i < |run| && At(run[i], t, Reclaiming)
    ensures var s, s' := run[i], Step(run[i], Reclaim(t));
            var task := s.tasks[t];
            && (task.key !in s'.locks <==> forall u :: u in s.tasks && u != t && HasClone(s.tasks[u].pc) ==> s.tasks[u].lock != task.lock)
            && (task.key in s'.locks ==> s'.locks[task.key] == task.lock)
  {
    RunKeepsInv(run, i);
    var s := run[i];
    CountedAlone(s, t);
    assert TaskLockOk(s, s.tasks[t]);
    assert forall u :: u in Clones(s, s.tasks[t].lock) <==> u in s.tasks && Clone(s.tasks[u], s.tasks[t].lock);
  }
}
