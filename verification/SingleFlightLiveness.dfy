/**
 Progress of `get_with`: each call takes finitely many steps, whatever is evicted, swept or
 cancelled meanwhile, and where no call can move every call has returned.
 */
module SingleFlightLiveness {
  import opened SingleFlight
  import opened TaskSums

  /** Steps a call has left. */
  function StepsLeft(pc: Pc): nat {
    match pc
    case Peeking => 9
    case Missed => 8
    case Queued => 7
    case Inside => 6
    case Initializing => 5
    case Computed => 4
    case Leaving => 3
    case Reclaiming => 2
    case Dropping => 1
    case _ => 0
  }

  function Weight<K, V>(): Task<K, V> -> nat {
    (task: Task<K, V>) => StepsLeft(task.pc)
  }

  ghost function AllLeft<K, V>(s: State<K, V>): nat {
    Sum(s.tasks, Weight())
  }

  lemma MoveFalls<K, V>(s: State<K, V>, a: Action<K, V>)
    requires ByTask(a) && Enabled(s, a) && !a.Call?
    ensures StepsLeft(Move(s, a).pc) < StepsLeft(s.tasks[a.t].pc)
  {
  }

  /** Every step of a call lowers the steps left, and nothing but a new call raises them: evictions,
      overwrites, sweeps and cancellations do not. */
  lemma StepDecreases<K, V>(s: State<K, V>, a: Action<K, V>)
    requires Enabled(s, a) && !a.Call?
    ensures if ByTask(a) then AllLeft(Step(s, a)) < AllLeft(s) else AllLeft(Step(s, a)) == AllLeft(s)
  {
    if ByTask(a) {
      MoveFalls(s, a);
      SumMoves(s.tasks, Step(s, a).tasks, a.t, Weight());
    }
  }

  ghost predicate NoNewCall<K(!new), V(!new)>(s: State<K, V>, s': State<K, V>) {
    exists a :: Enabled(s, a) && !a.Call? && s' == Step(s, a)
  }

  ghost predicate CallMoves<K(!new), V(!new)>(s: State<K, V>, s': State<K, V>) {
    exists a :: Moves(s, a) && s' == Step(s, a)
  }

  lemma NoNewCallFalls<K(!new), V(!new)>(s: State<K, V>, s': State<K, V>)
    requires NoNewCall(s, s')
    ensures AllLeft(s') <= AllLeft(s)
    ensures CallMoves(s, s') ==> AllLeft(s') < AllLeft(s)
  {
    var a :| Enabled(s, a) && !a.Call? && s' == Step(s, a);
    StepDecreases(s, a);
    if CallMoves(s, s') {
      var b :| Moves(s, b) && s' == Step(s, b);
      StepDecreases(s, b);
    }
  }

  lemma {:induction false} LeftFalls<K(!new), V(!new)>(schedule: nat -> State<K, V>, from: nat, later: nat)
    requires from <= later && forall n :: from <= n ==> NoNewCall(schedule(n), schedule(n + 1))
    ensures AllLeft(schedule(later)) <= AllLeft(schedule(from))
    decreases later
  {
    if from < later {
      LeftFalls(schedule, from, later - 1);
      assert NoNewCall(schedule(later - 1), schedule(later - 1 + 1));
      NoNewCallFalls(schedule(later - 1), schedule(later));
    }
  }

  /** Calls take finitely many steps: an endless schedule without new calls, whatever its evictions,
      sweeps and cancellations, has a point after which no call moves. */
  lemma {:induction false} CallsComeToRest<K(!new), V(!new)>(schedule: nat -> State<K, V>, from: nat) returns (rest: nat)
    requires forall n :: from <= n ==> NoNewCall(schedule(n), schedule(n + 1))
    ensures from <= rest && forall n :: rest <= n ==> !CallMoves(schedule(n), schedule(n + 1))
    decreases AllLeft(schedule(from))
  {
    if n :| from <= n && CallMoves(schedule(n), schedule(n + 1)) {
      LeftFalls(schedule, from, n);
      NoNewCallFalls(schedule(n), schedule(n + 1));
      rest := CallsComeToRest(schedule, n + 1);
    } else {
      rest := from;
    }
  }

  /** Where no call can move, every call has returned or was cancelled. */
  lemma RestMeansReturned<K(!new), V(!new)>(run: seq<State<K, V>>, i: nat, t: nat, v: V)
    requires IsRun(run) && i < |run| && (forall a :: !Moves(run[i], a)) && t in run[i].tasks
    ensures run[i].tasks[t].pc.Done? || run[i].tasks[t].pc.Cancelled?
  {
    if !run[i].tasks[t].pc.Done? && !run[i].tasks[t].pc.Cancelled? {
      NoDeadlock(run, i, t, v);
    }
  }
}
