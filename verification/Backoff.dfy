/** Retry delays: exponential growth with a cap, truncated to whole seconds, and jitter. */
module Backoff {
  datatype RetryConfig = RetryConfig(initialDelay: int, multiplier: real, maxDelay: int)

  /** `static_cast<long>` from a floating value: truncation toward zero. */
  function Trunc(x: real): int {
    if x >= 0.0 then x.Floor else -(-x).Floor
  }

  /** One multiplication of the loop. */
  function Longer(c: RetryConfig, delay: int): int {
    Trunc(delay as real * c.multiplier)
  }

  /** What is left of the loop at index i with the delay reached so far; the cap ends it. */
  function Grow(c: RetryConfig, delay: int, i: int, n: int): int
    decreases n - i
  {
    if i >= n then delay
    else
      var next := Longer(c, delay);
      if next > c.maxDelay then c.maxDelay else Grow(c, next, i + 1, n)
  }

  /** The delay before jitter for the n-th retry. */
  function BaseDelay(c: RetryConfig, n: int): int {
    Grow(c, c.initialDelay, 1, n)
  }

  function Pow(m: nat, e: nat): nat {
    if e == 0 then 1 else m * Pow(m, e - 1)
  }

  function Min(a: int, b: int): int {
    if a <= b then a else b
  }

  lemma WholeProduct(d: int, m: nat)
    requires d >= 0
    ensures Trunc(d as real * m as real) == d * m
  {
    assert d as real * m as real == (d * m) as real;
    assert d * m >= 0;
  }

  lemma PowPositive(m: nat, e: nat)
    requires m >= 1
    ensures Pow(m, e) >= 1
  {
    if e > 0 {
      PowPositive(m, e - 1);
      assert m * Pow(m, e - 1) >= 1 * 1;
    }
  }

  /** initial * m^e. */
  function Scaled(d: int, m: nat, e: nat): int {
    d * Pow(m, e)
  }

  lemma ScaledStep(d: int, m: nat, e: nat)
    requires d >= 0 && m >= 1
    ensures Scaled(d, m, 0) == d <= d * m
    ensures e > 0 ==> Scaled(d, m, e) == Scaled(d * m, m, e - 1)
    ensures Scaled(d, m, e) >= d
  {
    assert d * m == d + d * (m - 1) && d * (m - 1) >= 0;
    PowPositive(m, e);
    var p := Pow(m, e);
    assert d * p == d + d * (p - 1) && d * (p - 1) >= 0;
    if e > 0 {
      var q := Pow(m, e - 1);
      assert d * (m * q) == (d * m) * q;
    }
  }

  lemma LongerIsProduct(c: RetryConfig, d: int, m: nat)
    requires d >= 0 && c.multiplier == m as real
    ensures Longer(c, d) == d * m
  {
    WholeProduct(d, m);
  }

  lemma {:induction false} GrowIsPower(c: RetryConfig, m: nat, d: int, i: int, n: int)
    requires m >= 1 && c.multiplier == m as real && 0 <= d <= c.maxDelay && i <= n
    ensures Grow(c, d, i, n) == Min(Scaled(d, m, n - i), c.maxDelay)
    decreases n - i
  {
    ScaledStep(d, m, n - i);
    if i < n {
      LongerIsProduct(c, d, m);
      var next := d * m;
      ScaledStep(next, m, n - i - 1);
      if next <= c.maxDelay {
        GrowIsPower(c, m, next, i + 1, n);
      }
    }
  }

  lemma CappedPower(c: RetryConfig, m: nat, n: nat)
    requires m >= 1 && c.multiplier == m as real && 0 <= c.initialDelay <= c.maxDelay && n >= 1
    ensures BaseDelay(c, n) == Min(c.initialDelay * Pow(m, n - 1), c.maxDelay)
  {
    GrowIsPower(c, m, c.initialDelay, 1, n);
  }

  /** With a whole multiplier the loop computes the capped power, min(initial * m^(n-1), max), for
      every retry exactly when the initial delay is within the maximum. */
  lemma BackoffIsCappedPowerIff(c: RetryConfig, m: nat)
    requires m >= 1 && c.multiplier == m as real && c.initialDelay >= 0
    ensures (forall n: nat :: n >= 1 ==> BaseDelay(c, n) == Min(c.initialDelay * Pow(m, n - 1), c.maxDelay)) <==>
            c.initialDelay <= c.maxDelay
  {
    if c.initialDelay <= c.maxDelay {
      forall n: nat | n >= 1
        ensures BaseDelay(c, n) == Min(c.initialDelay * Pow(m, n - 1), c.maxDelay)
      {
        CappedPower(c, m, n);
      }
    } else {
      assert BaseDelay(c, 1) == c.initialDelay && Pow(m, 0) == 1;
    }
  }

  lemma {:induction false} GrowBounded(c: RetryConfig, d: int, i: int, n: int)
    requires d <= c.maxDelay
    ensures Grow(c, d, i, n) <= c.maxDelay
    decreases n - i
  {
    if i < n {
      var next := Longer(c, d);
      if next <= c.maxDelay {
        GrowBounded(c, next, i + 1, n);
      }
    }
  }

  /** The configured maximum is respected for every retry exactly when the initial delay respects it:
      the first retry never enters the loop that applies the cap. */
  lemma CapRespectedIff(c: RetryConfig)
    ensures (forall n :: n >= 1 ==> BaseDelay(c, n) <= c.maxDelay) <==> c.initialDelay <= c.maxDelay
  {
    assert BaseDelay(c, 1) == c.initialDelay;
    if c.initialDelay <= c.maxDelay {
      forall n | n >= 1
        ensures BaseDelay(c, n) <= c.maxDelay
      {
        GrowBounded(c, c.initialDelay, 1, n);
      }
    }
  }

  lemma TruncGrows(d: int, f: real)
    requires d >= 0 && f >= 1.0
    ensures Trunc(d as real * f) >= d
  {
    assert d as real * f == d as real + d as real * (f - 1.0);
    assert d as real * (f - 1.0) >= 0.0;
  }

  lemma {:induction false} GrowMonotone(c: RetryConfig, d: int, i: int, n: int)
    requires c.multiplier >= 1.0 && 0 <= d <= c.maxDelay && i <= n
    ensures Grow(c, d, i, n) <= Grow(c, d, i, n + 1)
    decreases n - i
  {
    var next := Longer(c, d);
    TruncGrows(d, c.multiplier);
    if i == n {
      assert Grow(c, next, i + 1, n + 1) == next;
    } else if next <= c.maxDelay {
      GrowMonotone(c, next, i + 1, n);
    }
  }

  /** Later retries never wait less, for any real multiplier of at least one, exactly when the initial
      delay is within the maximum: otherwise the second retry is capped and the first is not. */
  lemma BackoffMonotoneIff(c: RetryConfig)
    requires c.multiplier >= 1.0 && c.initialDelay >= 0
    ensures (forall n: nat :: n >= 1 ==> BaseDelay(c, n) <= BaseDelay(c, n + 1)) <==> c.initialDelay <= c.maxDelay
  {
    if c.initialDelay <= c.maxDelay {
      forall n: nat | n >= 1
        ensures BaseDelay(c, n) <= BaseDelay(c, n + 1)
      {
        GrowMonotone(c, c.initialDelay, 1, n);
      }
    } else {
      TruncGrows(c.initialDelay, c.multiplier);
      assert BaseDelay(c, 1) == c.initialDelay && BaseDelay(c, 1 + 1) == c.maxDelay;
    }
  }

  /** Truncation goes toward zero and drops less than one. */
  lemma TruncDrops(x: real)
    ensures x >= 0.0 ==> Trunc(x) as real <= x < (Trunc(x) + 1) as real
    ensures x < 0.0 ==> (Trunc(x) - 1) as real < x <= Trunc(x) as real
  {
  }

  lemma {:induction false} GrowNext(c: RetryConfig, d: int, i: int, n: int)
    requires c.multiplier >= 1.0 && 0 <= d <= c.maxDelay && i <= n
    ensures 0 <= Grow(c, d, i, n) <= c.maxDelay
    ensures Grow(c, d, i, n + 1) == Min(Longer(c, Grow(c, d, i, n)), c.maxDelay)
    decreases n - i
  {
    var next := Longer(c, d);
    TruncGrows(d, c.multiplier);
    if i == n {
      assert Grow(c, d, i, n) == d;
      assert Grow(c, next, i + 1, n + 1) == next;
    } else if next <= c.maxDelay {
      GrowNext(c, next, i + 1, n);
    } else {
      TruncGrows(c.maxDelay, c.multiplier);
    }
  }

  /** The next delay is what the growth leaves after rounding down, at most the maximum. */
  predicate NextDelay(grown: real, max: int, next: int) {
    && (grown < (max + 1) as real ==> next as real <= grown < (next + 1) as real)
    && (grown >= (max + 1) as real ==> next == max)
  }

  /** The delay times the multiplier, before rounding. */
  function Grown(c: RetryConfig, delay: int): real {
    delay as real * c.multiplier
  }

  lemma NextAfter(c: RetryConfig, d: int)
    requires d >= 0 && c.multiplier >= 0.0
    ensures NextDelay(Grown(c, d), c.maxDelay, Min(Longer(c, d), c.maxDelay))
  {
    NotNegative(d, c.multiplier);
    TruncDrops(Grown(c, d));
  }

  lemma BaseDelayNext(c: RetryConfig, n: nat)
    requires c.multiplier >= 1.0 && 0 <= c.initialDelay <= c.maxDelay && n >= 1
    ensures BaseDelay(c, n) >= 0
    ensures BaseDelay(c, n + 1) == Min(Longer(c, BaseDelay(c, n)), c.maxDelay)
  {
    GrowNext(c, c.initialDelay, 1, n);
  }

  /** Each delay is the one before times the multiplier, rounded down, unless that exceeds the maximum. */
  lemma BackoffRecurrence(c: RetryConfig, n: nat, before: int, after: int)
    requires c.multiplier >= 1.0 && 0 <= c.initialDelay <= c.maxDelay && n >= 1
    requires before == BaseDelay(c, n) && after == BaseDelay(c, n + 1)
    ensures NextDelay(Grown(c, before), c.maxDelay, after)
  {
    BaseDelayNext(c, n);
    NextAfter(c, before);
  }

  lemma NotNegative(d: int, f: real)
    requires d >= 0 && f >= 0.0
    ensures d as real * f >= 0.0
  {
  }

  /** The jitter factor drawn uniformly from [0.75, 1.25). */
  predicate IsJitter(f: real) {
    0.75 <= f < 1.25
  }

  function Jittered(d: int, f: real): int {
    Trunc(d as real * f)
  }

  function Scheduled(c: RetryConfig, retry: int, now: int, f: real): int {
    now + Jittered(BaseDelay(c, retry), f)
  }

  lemma ScaleBetween(d: int, f: real)
    requires d >= 0 && IsJitter(f)
    ensures 0.75 * d as real <= d as real * f <= 1.25 * d as real
  {
    assert d as real * f - 0.75 * d as real == d as real * (f - 0.75);
    assert 1.25 * d as real - d as real * f == d as real * (1.25 - f);
    assert d as real * (f - 0.75) >= 0.0 && d as real * (1.25 - f) >= 0.0;
  }

  lemma TruncBetween(d: int, x: real)
    requires d >= 0 && 0.75 * d as real <= x <= 1.25 * d as real
    ensures 3 * d / 4 <= Trunc(x) <= 5 * d / 4
  {
    assert (3 * d) as real <= 4.0 * x <= (5 * d) as real;
  }

  lemma JitteredBetween(d: int, f: real)
    requires d >= 0 && IsJitter(f)
    ensures 3 * d / 4 <= Jittered(d, f) <= 5 * d / 4
  {
    ScaleBetween(d, f);
    TruncBetween(d, d as real * f);
  }

  /** The delay is the base delay times the jitter factor, rounded down to whole seconds; so the scheduled
      time lies between now + floor(3/4 base) and now + floor(5/4 base). */
  lemma JitterWindow(c: RetryConfig, retry: int, now: int, f: real)
    requires IsJitter(f) && BaseDelay(c, retry) >= 0
    ensures var at := Scheduled(c, retry, now, f);
            && (at - now) as real <= BaseDelay(c, retry) as real * f < (at - now + 1) as real
            && now + 3 * BaseDelay(c, retry) / 4 <= at <= now + 5 * BaseDelay(c, retry) / 4
  {
    JitteredBetween(BaseDelay(c, retry), f);
    ScaleBetween(BaseDelay(c, retry), f);
  }

  /** `calculate_next_retry`. */
  method CalculateNextRetry(c: RetryConfig, retryCount: int, now: int, jitter: real) returns (at: int)
    ensures at == Scheduled(c, retryCount, now, jitter)
  {
    var delay := c.initialDelay;
    var i := 1;
    while i < retryCount
      invariant BaseDelay(c, retryCount) == Grow(c, delay, i, retryCount)
    {
      delay := Longer(c, delay);
      if delay > c.maxDelay {
        delay := c.maxDelay;
        break;
      }
      i := i + 1;
    }
    assert delay == BaseDelay(c, retryCount);
    at := now + Jittered(delay, jitter);
  }
}
