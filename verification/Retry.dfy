/** Retry categories and delays. Durations are nanoseconds; jitter is unset, as in production. */
module Retry {
  import opened Wrappers

  const MINUTE: int := 60 * 1_000_000_000
  const HOUR: int := 60 * MINUTE
  const DAY: int := 24 * HOUR
  const MAX_DELAY: int := DAY
  const WEEK: int := 7 * DAY
  const MAX_ATTEMPTS: int := 2

  /** The empty category `None` of the source is `NoFailure`. */
  datatype Category =
    | NoFailure | Dns | Transport | Timeout | RobotsTemporary | Http408 | Http429 | Http4xx | Http5xx
    | DeclarationUnavailable | Processor | Store | UnsafeAddress | PolicyBlocked | RobotsDenied
    | MalformedOrigin | UnsupportedOrigin | OversizedContent | UnsupportedContent | BudgetExhausted
    | DeclarationInvalid | DeclarationUnsupported | CrossOriginRedirect | DeclarationAbsent

  predicate Transient(c: Category) {
    c in {Dns, Transport, Timeout, RobotsTemporary, Http408, Http429, Http5xx, DeclarationUnavailable, Processor, Store}
  }

  function Backoff(index: nat): int
    requires index < 5
  {
    [5 * MINUTE, 30 * MINUTE, 2 * HOUR, 12 * HOUR, 24 * HOUR][index]
  }

  function CapDuration(d: int): int {
    if d <= 0 then 0 else if d > MAX_DELAY then MAX_DELAY else d
  }

  /** The delay after a number of consecutive failures, never less than a server's Retry-After within a day. */
  function Delay(failures: int, retryAfter: int): (d: int)
    ensures 5 * MINUTE <= d <= MAX_DELAY
    ensures Min(retryAfter, MAX_DELAY) <= d
    ensures failures <= 1 && retryAfter <= 0 ==> d == 5 * MINUTE
    ensures failures >= 5 ==> d == MAX_DELAY
  {
    var index := Max(0, Min(failures - 1, 4));
    CapDuration(Max(Backoff(index), retryAfter))
  }

  lemma DelayGrows(f: int, g: int, retryAfter: int)
    requires f <= g
    ensures Delay(f, retryAfter) <= Delay(g, retryAfter)
  {
    var i, j := Max(0, Min(f - 1, 4)), Max(0, Min(g - 1, 4));
    assert Backoff(i) <= Backoff(j);
  }

  /** The wait after a transient verification failure: past participants are rechecked weekly from the sixth on. */
  function RetryWait(participated: bool, failures: int, retryAfter: int): int {
    if participated && failures > 5 then WEEK else Delay(failures, retryAfter)
  }

  /**
   Along a streak of transient failures the waits never shrink; they stay within a day, or are a
   week from a participant's sixth.
   */
  lemma WaitsGrow(participated: bool, f: nat, g: nat)
    requires 1 <= f <= g
    ensures RetryWait(participated, f, 0) <= RetryWait(participated, g, 0)
    ensures RetryWait(participated, g, 0) <= (if participated && g > 5 then WEEK else DAY)
  {
    DelayGrows(f, g, 0);
  }

  // ---- Reprobing ------------------------------------------------------------

  function Pow2(n: nat): nat { if n == 0 then 1 else 2 * Pow2(n - 1) }

  /** The doubling delay between probes of an origin that keeps missing. */
  function ReprobeInterval(first: int, misses: nat): int { Min(first * Pow2(misses), WEEK) }

  lemma {:induction false} DoublingGrows(first: int, i: nat, j: nat)
    requires first >= 0 && i <= j
    ensures first * Pow2(i) <= first * Pow2(j)
    decreases j - i
  {
    if i < j {
      DoublingGrows(first, i, j - 1);
      DoublingStep(first, j - 1);
    }
  }

  lemma DoublingStep(first: int, n: nat)
    ensures first * Pow2(n + 1) == 2 * (first * Pow2(n))
  {
  }

  /** The doubling loop never overflows: it stops as soon as the next doubling would reach a week. */
  method ReprobeLoop(first: int, priorMisses: nat) returns (interval: int)
    requires first > 0
    ensures interval == ReprobeInterval(first, priorMisses)
    ensures 0 < interval <= WEEK
  {
    interval := first;
    if interval >= WEEK {
      DoublingGrows(first, 0, priorMisses);
      return WEEK;
    }
    for attempt := 0 to priorMisses
      invariant interval == first * Pow2(attempt) && 0 < interval < WEEK
    {
      DoublingStep(first, attempt);
      if interval >= WEEK / 2 {
        DoublingGrows(first, attempt + 1, priorMisses);
        return WEEK;
      }
      interval := interval * 2;
    }
  }

  lemma ReprobeGrows(first: int, i: nat, j: nat)
    requires first >= 0 && i <= j
    ensures ReprobeInterval(first, i) <= ReprobeInterval(first, j) <= WEEK
  {
    DoublingGrows(first, i, j);
  }
}
