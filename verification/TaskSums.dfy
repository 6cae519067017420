/** Sums over a finite map of tasks, for measures that fall as tasks move. */
module TaskSums {
  /** There is always an unused task id. */
  lemma {:induction false} FreshId(ids: set<nat>) returns (id: nat)
    ensures forall i :: i in ids ==> i < id
    decreases ids
  {
    id := 0;
    if ids == {} {
    } else {
      var x :| x in ids;
      var rest := FreshId(ids - {x});
      id := if rest > x then rest else x + 1;
      assert forall i :: i in ids ==> i == x || i in ids - {x};
    }
  }

  predicate Below<T>(tasks: map<nat, T>, n: nat) {
    forall t :: t in tasks ==> t < n
  }

  ghost function Bound<T>(tasks: map<nat, T>): (n: nat)
    ensures Below(tasks, n)
  {
    assert exists n: nat :: Below(tasks, n) by {
      var n := FreshId(tasks.Keys);
      assert Below(tasks, n);
    }
    var n: nat :| Below(tasks, n);
    n
  }

  /** The sum of `weight` over the tasks with an id below `n`. */
  ghost function Total<T>(tasks: map<nat, T>, n: nat, weight: T -> nat): nat {
    if n == 0 then 0
    else Total(tasks, n - 1, weight) + (if n - 1 in tasks then weight(tasks[n - 1]) else 0)
  }

  ghost function Sum<T>(tasks: map<nat, T>, weight: T -> nat): nat {
    Total(tasks, Bound(tasks), weight)
  }

  lemma {:induction false} TotalSame<T>(tasks: map<nat, T>, tasks': map<nat, T>, n: nat, weight: T -> nat)
    requires forall t :: t < n ==> (t in tasks <==> t in tasks')
    requires forall t :: t < n && t in tasks ==> tasks'[t] == tasks[t]
    ensures Total(tasks', n, weight) == Total(tasks, n, weight)
  {
    if n == 0 {
    } else {
      TotalSame(tasks, tasks', n - 1, weight);
    }
  }

  lemma {:induction false} TotalUpdate<T>(tasks: map<nat, T>, t: nat, task: T, n: nat, weight: T -> nat)
    requires t < n
    ensures Total(tasks[t := task], n, weight) + (if t in tasks then weight(tasks[t]) else 0)
            == Total(tasks, n, weight) + weight(task)
  {
    if t < n - 1 {
      TotalUpdate(tasks, t, task, n - 1, weight);
    } else {
      TotalSame(tasks, tasks[t := task], n - 1, weight);
    }
  }

  lemma {:induction false} TotalStable<T>(tasks: map<nat, T>, n: nat, m: nat, weight: T -> nat)
    requires Below(tasks, n) && n <= m
    ensures Total(tasks, m, weight) == Total(tasks, n, weight)
    decreases m
  {
    if n < m {
      TotalStable(tasks, n, m - 1, weight);
    }
  }

  /** Moving one task moves a sum by the change in that task's weight. */
  lemma SumMoves<T>(tasks: map<nat, T>, tasks': map<nat, T>, t: nat, weight: T -> nat)
    requires t in tasks' && tasks' == tasks[t := tasks'[t]]
    ensures Sum(tasks', weight) + (if t in tasks then weight(tasks[t]) else 0) == Sum(tasks, weight) + weight(tasks'[t])
  {
    var n := if Bound(tasks) > Bound(tasks') then Bound(tasks) else Bound(tasks');
    TotalStable(tasks, Bound(tasks), n, weight);
    TotalStable(tasks', Bound(tasks'), n, weight);
    TotalUpdate(tasks, t, tasks'[t], n, weight);
  }
}
