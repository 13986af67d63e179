/** Fetching a user's devices, with retries and growing waits. */
module DeviceRetry {
  import opened Wrappers
  import opened GoTime
  import opened Doubles
  import Reminders

  datatype DeviceError = Unauthorized | InvalidArgument | ServiceUnavailable | OtherError | ContextDone

  type Outcome = Result<seq<Reminders.DeviceInfo>, DeviceError>

  /** The multiplier is a double, given as a multiple of 2^-54. */
  datatype RetryConfig = RetryConfig(
    maxAttempts: int,
    initialInterval: nat,
    maxInterval: nat,
    multiplier: nat)

  const DEFAULT_RETRY_CONFIG := RetryConfig(3, 100 * MILLISECOND, 2 * SECOND, 2 * TWO54)

  predicate IsRetryable(o: Outcome) {
    o.Err? && o.error.ServiceUnavailable?
  }

  /** The wait after this one. A product beyond int64 converts to a value the platform chooses. */
  function NextInterval(interval: Duration, config: RetryConfig, outOfRange: Duration): Duration {
    var product :=
      if interval >= 0 then TruncatedProduct(interval, config.multiplier)
      else 0 - TruncatedProduct(-interval, config.multiplier);
    var next := if MIN_DURATION <= product <= MAX_DURATION then product else outOfRange;
    if next > config.maxInterval then config.maxInterval else next
  }

  /** The wait after attempt `k + 1`. */
  function IntervalAt(config: RetryConfig, outOfRange: Duration, k: nat): Duration {
    if k == 0 then config.initialInterval else NextInterval(IntervalAt(config, outOfRange, k - 1), config, outOfRange)
  }

  /** `GetUserDevicesWithRetry`. `outcome(k)` is what attempt `k + 1` gives and `cancelled(k)` whether the
      context ends during the wait after it; `waits` records the completed waits.

      The loop refines one line: stop at the first outcome that is a success or not retryable, or at the
      last attempt, and return that outcome, unless a wait before it is cut short. */
  method GetUserDevicesWithRetry(outcome: nat -> Outcome, cancelled: nat -> bool, config: RetryConfig,
      outOfRange: Duration)
    returns (r: Outcome, waits: seq<Duration>)
    ensures |waits| == 0 || |waits| < config.maxAttempts
    ensures forall k :: 0 <= k < |waits| ==> outcome(k) == Err(ServiceUnavailable) && !cancelled(k)
    ensures outcome(|waits|) == Err(ServiceUnavailable) && |waits| + 1 < config.maxAttempts ==>
      cancelled(|waits|) && r == Err(ContextDone)
    ensures outcome(|waits|) != Err(ServiceUnavailable) || |waits| + 1 >= config.maxAttempts ==> r == outcome(|waits|)
    ensures forall k :: 0 <= k < |waits| ==> waits[k] == IntervalAt(config, outOfRange, k)
  {
    hide NextInterval;
    var maxAttempts := config.maxAttempts;
    if maxAttempts <= 0 {
      maxAttempts := 1;
    }
    waits := [];
    var lastErr := OtherError;
    var interval: Duration := config.initialInterval;
    var attempt := 1;
    while attempt <= maxAttempts
      invariant 1 <= attempt <= maxAttempts && |waits| == attempt - 1
      invariant forall k :: 0 <= k < |waits| ==> IsRetryable(outcome(k)) && !cancelled(k)
      invariant interval == IntervalAt(config, outOfRange, attempt - 1)
      invariant forall k :: 0 <= k < |waits| ==> waits[k] == IntervalAt(config, outOfRange, k)
    {
      var devices := outcome(attempt - 1);
      if devices.Ok? {
        return devices, waits;
      }
      lastErr := devices.error;
      if !IsRetryable(devices) {
        return Err(lastErr), waits;
      }
      if attempt == maxAttempts {
        break;
      }
      if cancelled(attempt - 1) {
        return Err(ContextDone), waits;
      }
      waits := waits + [interval];
      interval := NextInterval(interval, config, outOfRange);
      attempt := attempt + 1;
    }
    return Err(lastErr), waits;
  }

  /** Two runs over the same outcomes stop at the same attempt with the same result:
      the contract above leaves the method no choice. */
  lemma StopIsUnique(outcome: nat -> Outcome, cancelled: nat -> bool, n: nat, i: nat, j: nat)
    requires i < n && j < n
    requires forall k :: 0 <= k < i ==> outcome(k) == Err(ServiceUnavailable) && !cancelled(k)
    requires forall k :: 0 <= k < j ==> outcome(k) == Err(ServiceUnavailable) && !cancelled(k)
    requires outcome(i) != Err(ServiceUnavailable) || i == n - 1 || cancelled(i)
    requires outcome(j) != Err(ServiceUnavailable) || j == n - 1 || cancelled(j)
    ensures i == j
  {
    assert i < j ==> outcome(i) == Err(ServiceUnavailable) && !cancelled(i);
    assert j < i ==> outcome(j) == Err(ServiceUnavailable) && !cancelled(j);
  }

  function Min(a: int, b: int): int {
    if a <= b then a else b
  }

  /** With an integer multiplier, while doubles are exact, the first wait is the initial interval and
      wait k + 1 (k >= 1) is the initial interval times the k-th power of the multiplier, capped. */
  lemma {:induction false} IntervalClosedForm(config: RetryConfig, factor: nat, outOfRange: Duration, k: nat)
    requires factor >= 1 && config.multiplier == factor * TWO54
    requires config.initialInterval * factor <= TWO53 && config.maxInterval * factor <= TWO53
    ensures IntervalAt(config, outOfRange, 0) == config.initialInterval
    ensures k >= 1 ==>
      IntervalAt(config, outOfRange, k) == Min(config.initialInterval * Pow(factor, k), config.maxInterval)
  {
    hide NextInterval;
    if k == 1 {
      assert Pow(factor, 1) == factor * Pow(factor, 0);
      ExactNext(config.initialInterval, config, factor, outOfRange);
    } else if k > 1 {
      IntervalClosedForm(config, factor, outOfRange, k - 1);
      var a := config.initialInterval * Pow(factor, k - 1);
      var w := Min(a, config.maxInterval);
      MulLe(w, config.maxInterval, factor);
      ExactNext(w, config, factor, outOfRange);
      MulAssociates(config.initialInterval, Pow(factor, k - 1), factor);
      assert config.initialInterval * Pow(factor, k) == a * factor;
      CappedProduct(a, config.maxInterval, factor);
    }
  }

  lemma CappedProduct(a: nat, max: nat, factor: nat)
    requires factor >= 1
    ensures Min(Min(a, max) * factor, max) == Min(a * factor, max)
  {
    MulLe(1, factor, max);
    if a > max {
      MulLe(max, a, factor);
    }
  }

  /** While the product has at most 53 bits no rounding happens. */
  lemma ExactNext(w: nat, config: RetryConfig, factor: nat, outOfRange: Duration)
    requires factor >= 1 && config.multiplier == factor * TWO54 && w * factor <= TWO53
    ensures NextInterval(w, config, outOfRange) == Min(w * factor, config.maxInterval)
  {
    MulLe(1, factor, w);
    RoundExact(w);
    RoundExact(w * factor);
    PowersOfTwo();
    RoundScaled(w * factor, 54, TWO54);
    MulAssociates(w, factor, TWO54);
    hide Round53;
  }

  /** Scaling by a power of two keeps an exact number exact. */
  lemma {:induction false} RoundScaled(n: nat, e: nat, u: nat)
    requires n <= TWO53 && u == Pow(2, e)
    ensures Round53(n * u) == n * u
  {
    ScaledIsDouble(n, e, u);
    RoundNearest(n * u, n * u);
  }

  /** The default configuration: three attempts, and waits that double from 100 ms up to 2 s. */
  lemma DefaultWaits(outOfRange: Duration, k: nat)
    ensures DEFAULT_RETRY_CONFIG.maxAttempts == 3
    ensures IntervalAt(DEFAULT_RETRY_CONFIG, outOfRange, k) == Min(100_000_000 * Pow(2, k), 2_000_000_000)
  {
    IntervalClosedForm(DEFAULT_RETRY_CONFIG, 2, outOfRange, k);
    hide IntervalAt, NextInterval;
    if k == 0 {
      assert Pow(2, 0) == 1;
    }
  }
}
