/**
 The retry backoff in int64 nanoseconds, where doubling wraps:
 internal/service/orchestrator/retry.go.
 */
module Backoff {
  datatype RetryReason = Continuation | Failure

  const SECOND := 1_000_000_000

  // An int64 multiplication, and the doubling that is its special case.
  function Wrap64(x: int): int {
    (x + 0x8000_0000_0000_0000) % 0x1_0000_0000_0000_0000 - 0x8000_0000_0000_0000
  }

  predicate IsInt64(x: int) {
    -0x8000_0000_0000_0000 <= x < 0x8000_0000_0000_0000
  }

  function Double64(x: int): (r: int)
    requires IsInt64(x)
    ensures IsInt64(r) && r == Wrap64(2 * x)
  {
    if 2 * x >= 0x8000_0000_0000_0000 then 2 * x - 0x1_0000_0000_0000_0000
    else if 2 * x < -0x8000_0000_0000_0000 then 2 * x + 0x1_0000_0000_0000_0000
    else 2 * x
  }

  // Ten seconds, in nanoseconds, doubled n times.
  function Doubled(n: nat): (r: int)
    ensures IsInt64(r)
  {
    if n == 0 then 10_000_000_000 else Double64(Doubled(n - 1))
  }

  function MaxRetryBackoff(maxRetryBackoffMS: int): int {
    if maxRetryBackoffMS > 0 then Wrap64(maxRetryBackoffMS * 1_000_000) else 300 * SECOND
  }

  function RetryDelay(reason: RetryReason, attempt: int, cap: int): int {
    if reason.Continuation? then SECOND
    else
      var doubled := Doubled(if attempt < 1 then 0 else attempt - 1);
      if doubled > cap then cap else doubled
  }

  /** The doubling loop. */
  method ComputeRetryDelay(reason: RetryReason, attempt: int, cap: int) returns (delay: int)
    ensures delay == RetryDelay(reason, attempt, cap)
  {
    if reason == Continuation {
      return SECOND;
    }
    var attempts := if attempt < 1 then 1 else attempt;
    delay := 10_000_000_000;
    var i := 1;
    while i < attempts
      invariant 1 <= i <= attempts
      invariant delay == Doubled(i - 1)
    {
      delay := Double64(delay);
      i := i + 1;
    }
    if delay > cap {
      delay := cap;
    }
  }

  // --- What the backoff is meant to be ---

  function Pow2(n: nat): (r: int)
    ensures r > 0
  {
    if n == 0 then 1 else 2 * Pow2(n - 1)
  }

  // Exponential backoff over unbounded integers, cut off at the cap.
  function Ideal(attempt: int, cap: int): int {
    var uncut := 10_000_000_000 * Pow2(if attempt < 1 then 0 else attempt - 1);
    if uncut > cap then cap else uncut
  }

  lemma {:induction false} Pow2Monotone(m: nat, n: nat)
    requires m <= n
    ensures Pow2(m) <= Pow2(n)
  {
    if m < n {
      Pow2Monotone(m, n - 1);
    }
  }

  // 2^29 is the last power whose ten-second multiple fits.
  lemma Pow2At29()
    ensures Pow2(29) == 0x2000_0000 && Pow2(30) == 0x4000_0000
  {
    assert Pow2(10) == 1024;
    assert Pow2(20) == 1024 * 1024;
    assert Pow2(29) == 512 * 1024 * 1024;
  }

  lemma {:induction false} DoubledExact(n: nat)
    requires n <= 29
    ensures Doubled(n) == 10_000_000_000 * Pow2(n)
  {
    if n > 0 {
      DoubledExact(n - 1);
      Pow2Monotone(n, 29);
      Pow2At29();
    }
  }

  // What is left of the doubled delay from the first wrap, at attempt 31, on.
  const WRAPPED: seq<int> := [
    -7709325833709551616,
    3028092406290448384,
    6056184812580896768,
    -6334374448547758080,
    5777995176614035456,
    -6890753720481480704,
    4665236632746590208,
    -9116270808216371200,
    214202457276809216,
    428404914553618432,
    856809829107236864,
    1713619658214473728,
    3427239316428947456,
    6854478632857894912,
    -4737786807993761792,
    8971170457722028032,
    -504403158265495552,
    -1008806316530991104,
    -2017612633061982208,
    -4035225266123964416,
    -8070450532247928832,
    2305843009213693952,
    4611686018427387904,
    -9223372036854775808,
    0]

  lemma WrappedSteps(k: nat)
    requires k < 24
    ensures |WRAPPED| == 25 && IsInt64(WRAPPED[k]) && WRAPPED[k + 1] == Double64(WRAPPED[k])
  {
  }

  lemma {:induction false} WrappedAt(k: nat)
    requires k < 25
    ensures |WRAPPED| == 25 && Doubled(30 + k) == WRAPPED[k]
  {
    if k == 0 {
      DoubledExact(29);
      Pow2At29();
    } else {
      WrappedAt(k - 1);
      WrappedSteps(k - 1);
    }
  }

  lemma {:induction false} WrappedAway(n: nat)
    requires n >= 54
    ensures Doubled(n) == 0
  {
    if n > 54 {
      WrappedAway(n - 1);
    } else {
      WrappedAt(n - 30);
    }
  }

  // The smallest positive delay that a wrapped doubling yields: over six years.
  const SHORTEST_WRAPPED := 214_202_457_276_809_216

  // Attempts above 30 whose wrapped delay still exceeds every such cap.
  predicate Lucky(attempt: int) {
    attempt == 32 || attempt == 33 || attempt == 35 || attempt == 37 || 39 <= attempt <= 44 || attempt == 46
    || attempt == 52 || attempt == 53
  }

  lemma LuckyAt(k: nat)
    requires k < 25
    ensures |WRAPPED| == 25
    ensures if Lucky(k + 31) then WRAPPED[k] >= SHORTEST_WRAPPED else WRAPPED[k] <= 0
  {
  }

  // Up to attempt 30 the loop computes the ideal backoff; it grows with the attempt
  // and never exceeds the cap.
  lemma BackoffClosedForm(attempt: int, later: int, cap: int)
    requires attempt <= later <= 30
    ensures RetryDelay(Failure, attempt, cap) == Ideal(attempt, cap)
    ensures RetryDelay(Failure, attempt, cap) <= RetryDelay(Failure, later, cap) <= cap
  {
    var m, n := if attempt < 1 then 0 else attempt - 1, if later < 1 then 0 else later - 1;
    DoubledExact(m);
    DoubledExact(n);
    Pow2Monotone(m, n);
  }

  // A higher cap never shortens a delay.
  lemma BackoffWithCap(attempt: int, cap: int, higher: int)
    requires cap <= higher
    ensures RetryDelay(Failure, attempt, cap) <= RetryDelay(Failure, attempt, higher)
  {
  }

  // Past attempt 30 the ideal delay is beyond every int64 cap.
  lemma IdealPast30(attempt: int, cap: int)
    requires attempt > 30 && IsInt64(cap)
    ensures Ideal(attempt, cap) == cap
  {
    Pow2At29();
    Pow2Monotone(30, attempt - 1);
  }

  // What the wrapped doubling has left at an attempt past 30.
  function Leftover(attempt: int): int
    requires attempt > 30
  {
    if attempt - 31 < |WRAPPED| then WRAPPED[attempt - 31] else 0
  }

  lemma DoubledPast30(attempt: int)
    requires attempt > 30
    ensures Doubled(attempt - 1) == Leftover(attempt)
  {
    if attempt - 31 < 25 {
      WrappedAt(attempt - 31);
    } else {
      WrappedAway(attempt - 1);
    }
  }

  // For every attempt and every int64 cap, exactly when the loop computes the ideal
  // backoff: up to attempt 30, and later if what is left still reaches the cap.
  lemma BackoffExactlyWhen(attempt: int, cap: int)
    requires IsInt64(cap)
    ensures RetryDelay(Failure, attempt, cap) == Ideal(attempt, cap) <==> (attempt <= 30 || Leftover(attempt) >= cap)
  {
    hide Leftover, Doubled, Ideal;
    if attempt <= 30 {
      BackoffClosedForm(attempt, attempt, cap);
    } else {
      IdealPast30(attempt, cap);
      DoubledPast30(attempt);
    }
  }

  // For caps below six years that is a fixed list of attempts, and all others are
  // retried without any delay at all.
  lemma BackoffBelowSixYears(attempt: int, cap: int)
    requires 0 < cap <= SHORTEST_WRAPPED && attempt > 30
    ensures RetryDelay(Failure, attempt, cap) == if Lucky(attempt) then cap else Leftover(attempt)
    ensures !Lucky(attempt) ==> RetryDelay(Failure, attempt, cap) <= 0
  {
    DoubledPast30(attempt);
    if attempt - 31 < 25 {
      LuckyAt(attempt - 31);
    }
  }

  // With the default cap of five minutes, attempt 31 is due before it is scheduled.
  lemma FirstWrap(attempt: int)
    requires attempt == 31
    ensures RetryDelay(Failure, attempt, MaxRetryBackoff(0)) == -7_709_325_833_709_551_616
    ensures Ideal(attempt, MaxRetryBackoff(0)) == 300 * SECOND
  {
    WrappedAt(attempt - 31);
    IdealPast30(attempt, 300 * SECOND);
  }

  // Ten seconds, doubled for each failure after the first, up to the cap, which is
  // configured in milliseconds.
  lemma DelaysInSeconds(attempt: int, maxRetryBackoffMS: int)
    requires 1 <= attempt <= 30 && 0 < maxRetryBackoffMS <= 9_000_000_000_000
    ensures var uncut := 10 * Pow2(attempt - 1);
      RetryDelay(Failure, attempt, MaxRetryBackoff(maxRetryBackoffMS)) ==
        if uncut * 1000 <= maxRetryBackoffMS then uncut * 1_000_000_000 else maxRetryBackoffMS * 1_000_000
    ensures RetryDelay(Continuation, attempt, MaxRetryBackoff(maxRetryBackoffMS)) == 1_000_000_000
  {
    DoubledExact(attempt - 1);
    hide Pow2, Doubled;
  }

  // Without a configured cap it is five minutes.
  lemma DefaultDelays(attempt: int, maxRetryBackoffMS: int)
    requires 1 <= attempt <= 30 && maxRetryBackoffMS <= 0
    ensures RetryDelay(Failure, attempt, MaxRetryBackoff(maxRetryBackoffMS)) ==
      (if attempt <= 5 then [10, 20, 40, 80, 160][attempt - 1] else 300) * 1_000_000_000
  {
    DoubledExact(attempt - 1);
    assert Pow2(0) == 1 && Pow2(1) == 2 && Pow2(2) == 4 && Pow2(3) == 8 && Pow2(4) == 16 && Pow2(5) == 32;
    if attempt > 5 {
      Pow2Monotone(5, attempt - 1);
    }
    hide Pow2, Doubled;
  }
}
