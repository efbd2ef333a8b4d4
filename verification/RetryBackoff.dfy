/** The delay before a failed job runs again, with reals in place of floating point. */
module RetryBackoff {
  import opened Common

  datatype Strategy = Fixed | Linear | ExponentialBackoff

  datatype RetryPolicy = RetryPolicy(
    strategy: Strategy, maxAttempts: int, baseDelayMs: int, maxDelayMs: int, jitter: bool)

  /** One random draw. */
  predicate IsDraw(d: real) {
    0.0 <= d < 1.0
  }

  function Pow2(n: nat): (p: int)
    ensures p > n
  {
    if n == 0 then 1 else 2 * Pow2(n - 1)
  }

  /** A zero in the policy counts as absent. */
  function Base(p: RetryPolicy): int {
    if p.baseDelayMs == 0 then 1000 else p.baseDelayMs
  }

  function Cap(p: RetryPolicy): int {
    if p.maxDelayMs == 0 then 60000 else p.maxDelayMs
  }

  /** The delay before jitter and cap, described by how it grows from one attempt to the next. */
  function Nominal(p: RetryPolicy, attempt: nat): int {
    if attempt == 0 then Base(p)
    else
      var previous := Nominal(p, attempt - 1);
      match p.strategy
      case Fixed => previous
      case Linear => previous + Base(p)
      case ExponentialBackoff => 2 * previous
  }

  lemma {:induction false} NominalClosed(p: RetryPolicy, attempt: nat)
    ensures p.strategy.Fixed? ==> Nominal(p, attempt) == Base(p)
    ensures p.strategy.Linear? ==> Nominal(p, attempt) == Base(p) * (attempt + 1)
    ensures p.strategy.ExponentialBackoff? ==> Nominal(p, attempt) == Base(p) * Pow2(attempt)
  {
    if attempt > 0 {
      NominalClosed(p, attempt - 1);
      if p.strategy.ExponentialBackoff? { Twice(Base(p), Pow2(attempt - 1)); }
    }
  }

  lemma Twice(x: int, y: int)
    ensures x * (2 * y) == 2 * (x * y)
  {
  }

  /** Jitter applies to exponential backoff only and stays within 20 percent. */
  function Jittered(p: RetryPolicy, nominal: int, draw: real): real {
    if p.strategy.ExponentialBackoff? && p.jitter then nominal as real * (0.8 + draw * 0.4) else nominal as real
  }

  lemma JitterBounds(p: RetryPolicy, nominal: int, draw: real)
    requires IsDraw(draw) && nominal >= 0
    ensures 0.8 * nominal as real <= Jittered(p, nominal, draw) <= 1.2 * nominal as real
    ensures !p.strategy.ExponentialBackoff? ==> Jittered(p, nominal, draw) == nominal as real
  {
    assert 0.0 <= nominal as real * draw <= nominal as real * 1.0;
  }

  function Capped(p: RetryPolicy, delay: real): real {
    if delay <= Cap(p) as real then delay else Cap(p) as real
  }

  function RetryDelay(policy: Option<RetryPolicy>, attempt: nat, draw: real): real {
    match policy
    case None => (1000 * Pow2(attempt)) as real
    case Some(p) => Capped(p, Jittered(p, Nominal(p, attempt), draw))
  }

  lemma NominalLiteral(p: RetryPolicy, attempt: nat)
    ensures var base := if p.baseDelayMs == 0 then 1000 else p.baseDelayMs;
            Nominal(p, attempt) == match p.strategy
                                   case Fixed => base
                                   case Linear => base * (attempt + 1)
                                   case ExponentialBackoff => base * Pow2(attempt)
  {
    NominalClosed(p, attempt);
  }

  /** The delay in closed form.  Without a policy it doubles from 1000 ms; with one, base and maximum are the policy's
      own, a zero counting as 1000 and 60000, and only jittered exponential backoff depends on the draw. */
  lemma DelayExact(p: RetryPolicy, attempt: nat, draw: real) returns (nominal: int)
    ensures RetryDelay(None, attempt, draw) == (1000 * Pow2(attempt)) as real
    ensures var base := if p.baseDelayMs == 0 then 1000 else p.baseDelayMs;
            nominal == match p.strategy
                       case Fixed => base
                       case Linear => base * (attempt + 1)
                       case ExponentialBackoff => base * Pow2(attempt)
    ensures var max := (if p.maxDelayMs == 0 then 60000 else p.maxDelayMs) as real;
            var delay := if p.strategy == ExponentialBackoff && p.jitter then nominal as real * (0.8 + draw * 0.4)
                         else nominal as real;
            RetryDelay(Some(p), attempt, draw) == if delay < max then delay else max
  {
    nominal := Nominal(p, attempt);
    hide Nominal, Pow2;
    NominalLiteral(p, attempt);
  }

  /** The switch of calculateRetryDelay, up to the jitter. */
  method NominalDelay(p: RetryPolicy, attempt: nat) returns (delay: int)
    ensures delay == Nominal(p, attempt)
  {
    var base := if p.baseDelayMs == 0 then 1000 else p.baseDelayMs;
    match p.strategy {
      case Fixed => delay := base;
      case Linear => delay := base * (attempt + 1);
      case ExponentialBackoff => delay := base * Pow2(attempt);
    }
    NominalClosed(p, attempt);
  }

  /** calculateRetryDelay */
  method CalculateRetryDelay(policy: Option<RetryPolicy>, attempt: nat, draw: real) returns (delay: real)
    ensures delay == RetryDelay(policy, attempt, draw)
  {
    if policy.None? { return (1000 * Pow2(attempt)) as real; }
    var p := policy.value;
    var max := if p.maxDelayMs == 0 then 60000 else p.maxDelayMs;
    var nominal := NominalDelay(p, attempt);
    delay := nominal as real;
    if p.strategy.ExponentialBackoff? && p.jitter { delay := delay * (0.8 + draw * 0.4); }
    if max as real < delay { delay := max as real; }
  }

  // ---------------------------------------------------------------- cap and order

  ghost predicate BoundedBy(policy: Option<RetryPolicy>, bound: int) {
    forall attempt: nat, draw: real :: IsDraw(draw) ==> RetryDelay(policy, attempt, draw) <= bound as real
  }

  /** The delay is bounded over all attempts exactly when the job has a retry policy: the default without a
      policy doubles without any cap. */
  lemma BoundedIff(policy: Option<RetryPolicy>)
    ensures (exists bound: int :: BoundedBy(policy, bound)) <==> policy.Some?
    ensures policy.Some? ==> BoundedBy(policy, Cap(policy.value))
  {
    if policy.None? {
      forall bound: int ensures !BoundedBy(policy, bound) {
        var attempt: nat := Max(0, bound);
        assert IsDraw(0.0);
        assert RetryDelay(policy, attempt, 0.0) > bound as real;
      }
    } else {
      assert BoundedBy(policy, Cap(policy.value));
    }
  }

  lemma {:induction false} Doubling(a: nat, b: nat)
    requires a < b
    ensures 2 * Pow2(a) <= Pow2(b)
  {
    if a < b - 1 { Doubling(a, b - 1); }
  }

  lemma {:induction false} NominalGrows(p: RetryPolicy, a: nat, b: nat)
    requires Base(p) > 0 && a < b
    ensures 0 < Nominal(p, a) <= Nominal(p, b)
    ensures p.strategy.ExponentialBackoff? ==> 2 * Nominal(p, a) <= Nominal(p, b)
    decreases b
  {
    if a < b - 1 {
      NominalGrows(p, a, b - 1);
    } else if a > 0 {
      NominalGrows(p, a - 1, a);
    }
  }

  /** The delay never shrinks from one attempt to a later one, whatever the jitter draws were: doubling the
      nominal delay outweighs the worst pair of draws, since 2 * 0.8 >= 1.2. */
  lemma DelayMonotone(policy: Option<RetryPolicy>, a: nat, b: nat, drawA: real, drawB: real)
    requires a < b && IsDraw(drawA) && IsDraw(drawB)
    requires policy.Some? ==> Base(policy.value) > 0
    ensures RetryDelay(policy, a, drawA) <= RetryDelay(policy, b, drawB)
  {
    match policy
    case None => Doubling(a, b);
    case Some(p) =>
      NominalGrows(p, a, b);
      JitterBounds(p, Nominal(p, a), drawA);
      JitterBounds(p, Nominal(p, b), drawB);
  }

  // ---------------------------------------------------------------- a job that fails every attempt

  /** The waits of a job that keeps failing: an attempt raises the counter, and its failure schedules a retry
      as long as the counter is below the limit. */
  function TotalWait(policy: Option<RetryPolicy>, maxAttempts: int, attemptCount: nat, draws: nat -> real): real
    decreases maxAttempts - attemptCount
  {
    var used := attemptCount + 1;
    if used < maxAttempts then
      RetryDelay(policy, used, draws(used)) + TotalWait(policy, maxAttempts, used, draws)
    else 0.0
  }

  lemma {:induction false} CapBoundsWait(p: RetryPolicy, m: nat, c: nat, draws: nat -> real)
    requires c < m
    ensures TotalWait(Some(p), m, c, draws) <= ((m - 1 - c) * Cap(p)) as real
    decreases m - c
  {
    if c + 1 < m {
      CapBoundsWait(p, m, c + 1, draws);
      assert (m - 1 - c) * Cap(p) == (m - 2 - c) * Cap(p) + Cap(p);
    }
  }

  lemma {:induction false} NominalBoundsWait(p: RetryPolicy, m: nat, c: nat, draws: nat -> real)
    requires forall k :: IsDraw(draws(k))
    requires c < m && p.strategy.ExponentialBackoff? && Base(p) > 0
    ensures TotalWait(Some(p), m, c, draws) <= 1.2 * (Nominal(p, m) - Nominal(p, c + 1)) as real
    decreases m - c
  {
    if c + 1 < m {
      NominalBoundsWait(p, m, c + 1, draws);
      NominalGrows(p, c + 1, c + 2);
      JitterBounds(p, Nominal(p, c + 1), draws(c + 1));
    }
  }

  lemma NominalFromSecond(p: RetryPolicy, m: nat)
    requires p.strategy.ExponentialBackoff?
    ensures Nominal(p, m) - Nominal(p, 1) == Base(p) * (Pow2(m) - 2)
  {
    NominalClosed(p, m);
    assert Nominal(p, 1) == 2 * Base(p);
    Twice(Base(p), 1);
    Distributes(Base(p), Pow2(m), 2);
  }

  lemma Distributes(x: int, y: int, z: int)
    ensures x * (y - z) == x * y - x * z
  {
  }

  /** A job that fails all its m attempts waits at most (m - 1) * cap in total, and under exponential backoff
      also at most 1.2 * base * (2^m - 2). */
  lemma TotalWaitBound(p: RetryPolicy, m: nat, draws: nat -> real)
    requires forall k :: IsDraw(draws(k))
    requires m > 0
    ensures TotalWait(Some(p), m, 0, draws) <= ((m - 1) * Cap(p)) as real
    ensures p.strategy.ExponentialBackoff? && Base(p) > 0 ==>
              TotalWait(Some(p), m, 0, draws) <= 1.2 * (Base(p) * (Pow2(m) - 2)) as real
  {
    hide TotalWait, Nominal, Pow2;
    CapBoundsWait(p, m, 0, draws);
    if p.strategy.ExponentialBackoff? && Base(p) > 0 {
      NominalBoundsWait(p, m, 0, draws);
      NominalFromSecond(p, m);
    }
  }

  lemma {:induction false} DefaultWaitFrom(m: nat, c: nat, draws: nat -> real)
    requires c < m
    ensures TotalWait(None, m, c, draws) == (1000 * (Pow2(m) - Pow2(c + 1))) as real
    decreases m - c
  {
    if c + 1 < m { DefaultWaitFrom(m, c + 1, draws); }
  }

  /** Without a policy the total is exactly 1000 * (2^m - 2) milliseconds. */
  lemma DefaultTotalWait(m: nat, draws: nat -> real)
    requires m > 0
    ensures TotalWait(None, m, 0, draws) == (1000 * (Pow2(m) - 2)) as real
  {
    DefaultWaitFrom(m, 0, draws);
    assert Pow2(1) == 2;
  }
}
