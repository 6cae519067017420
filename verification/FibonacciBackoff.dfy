/** The reconnect delay: a capped Fibonacci sequence with ten per cent jitter. */
module FibonacciBackoff {
  const MAX_MS: nat := 900_000

  function Fib(n: nat): nat {
    if n < 2 then 1 else Fib(n - 1) + Fib(n - 2)
  }

  function Capped(x: nat): nat {
    if x <= MAX_MS then x else MAX_MS
  }

  /** The delay before jitter: the cap of the uncapped sequence. */
  function Base(attempt: nat): nat {
    Capped(1000 * Fib(attempt))
  }

  /** The loop caps as it goes; the result is the cap of the true Fibonacci number. */
  method BaseDelay(attempt: nat) returns (base: nat)
    ensures base == Base(attempt)
  {
    var a, b: nat := 1000, 1000;
    for k := 0 to attempt
      invariant a == Base(k) && b == Base(k + 1)
    {
      var next := Capped(a + b);
      a := b;
      b := next;
    }
    base := Capped(a);
  }

  function AtLeastZero(x: int): nat {
    if x < 0 then 0 else x
  }

  /** The delay for a draw of the random generator: the draws move it, one millisecond each, from a
      tenth below the base to a tenth above it. */
  method Backoff(attempt: nat, draw: nat) returns (ms: nat)
    requires draw <= 2 * (Base(attempt) / 10)
    ensures ms == Base(attempt) - Base(attempt) / 10 + draw
    ensures 900 <= ms <= 990_000
  {
    var base := BaseDelay(attempt);
    BaseIsBounded(attempt);
    var jitterRange := base / 10;
    var jitter := 0;
    if jitterRange > 0 {
      jitter := draw - jitterRange;
    }
    ms := AtLeastZero(base + jitter);
  }

  lemma {:induction false} FibIsPositive(n: nat)
    ensures Fib(n) >= 1
  {
    if n >= 2 {
      FibIsPositive(n - 1);
    }
  }

  lemma {:induction false} FibGrows(m: nat, n: nat)
    requires m <= n
    ensures Fib(m) <= Fib(n)
  {
    if m < n {
      FibGrows(m, n - 1);
      if n >= 2 {
        FibIsPositive(n - 2);
      }
    }
  }

  lemma BaseIsBounded(attempt: nat)
    ensures 1000 <= Base(attempt) <= MAX_MS
  {
    FibIsPositive(attempt);
  }

  lemma BaseIsMonotone(m: nat, n: nat)
    requires m <= n
    ensures Base(m) <= Base(n)
  {
    FibGrows(m, n);
  }

  lemma FirstCappedAttempt()
    ensures Fib(14) == 610 && Fib(15) == 987
  {
  }

  /** The cap is reached at attempt 15 and never before. */
  lemma CapReachedAt15(attempt: nat)
    ensures Base(attempt) == MAX_MS <==> attempt >= 15
  {
    FirstCappedAttempt();
    if attempt >= 15 {
      FibGrows(15, attempt);
    } else {
      FibGrows(attempt, 14);
    }
  }
}
