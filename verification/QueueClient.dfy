/** Posting a message to the task queue, with exponential backoff. */
module QueueClient {
  import opened Wrappers
  import opened GoTime
  import opened Doubles

  /** Why no response came back: every post failed, the last one with `last`, or the context ended. */
  datatype QueueError<+E> = Exhausted(last: E) | ContextDone

  /** `NewPrimindTasksClient`: a limit that is not positive means three. */
  function MaxRetries(configured: int): (n: int)
    ensures n >= 1
  {
    if configured <= 0 then 3 else configured
  }

  /** Two's complement wrap-around to int64. */
  function WrapInt64(x: int): (r: int)
    ensures MIN_DURATION <= r <= MAX_DURATION
    ensures MIN_DURATION <= x <= MAX_DURATION ==> r == x
  {
    (x + 0x8000_0000_0000_0000) % 0x1_0000_0000_0000_0000 - 0x8000_0000_0000_0000
  }

  /** `time.Duration(math.Pow(2, attempt-1)) * 100 * time.Millisecond`: powers of two are exact doubles;
      one beyond int64 converts to a value the platform chooses; the products wrap. */
  function Backoff(attempt: nat, outOfRange: Duration): (d: Duration)
    requires attempt >= 1
  {
    var power := Pow(2, attempt - 1);
    WrapInt64(WrapInt64((if power <= MAX_DURATION then power else outOfRange) * 100) * MILLISECOND)
  }

  /** The waits before the posts after the first, together. */
  function TotalBackoff(posts: nat, outOfRange: Duration): int {
    if posts <= 1 then 0 else TotalBackoff(posts - 1, outOfRange) + Backoff(posts - 1, outOfRange)
  }

  /** The retry loop of `CreateTask`. `outcome(k)` is what post `k + 1` gives, `cancelled(k)` whether the
      context ends during the wait before it. */
  method PostWithRetry<R, E>(outcome: nat -> Result<R, E>, cancelled: nat -> bool,
                             configured: int, outOfRange: Duration)
    returns (r: Result<R, QueueError<E>>, posts: nat, slept: int)
    ensures 1 <= posts <= if configured <= 0 then 3 else configured
    ensures forall k :: 0 <= k < posts - 1 ==> outcome(k).Err?
    ensures forall k :: 1 <= k < posts ==> !cancelled(k)
    ensures outcome(posts - 1).Ok? ==> r == Ok(outcome(posts - 1).value)
    ensures outcome(posts - 1).Err? ==>
      if posts == (if configured <= 0 then 3 else configured) then r == Err(Exhausted(outcome(posts - 1).error))
      else cancelled(posts) && r == Err(ContextDone)
    ensures slept == TotalBackoff(posts, outOfRange)
  {
    var maxRetries := MaxRetries(configured);
    posts, slept := 0, 0;
    var attempt := 0;
    while attempt < maxRetries
      invariant 0 <= attempt <= maxRetries && posts == attempt
      invariant forall k :: 0 <= k < attempt ==> outcome(k).Err?
      invariant forall k :: 1 <= k < attempt ==> !cancelled(k)
      invariant slept == TotalBackoff(posts, outOfRange)
    {
      if attempt > 0 {
        var backoff := Backoff(attempt, outOfRange);
        if cancelled(attempt) {
          return Err(ContextDone), posts, slept;
        }
        slept := slept + backoff;
      }
      var resp := outcome(attempt);
      posts := posts + 1;
      if resp.Ok? {
        return Ok(resp.value), posts, slept;
      }
      attempt := attempt + 1;
    }
    return Err(Exhausted(outcome(maxRetries - 1).error)), posts, slept;
  }

  /** The wait before post `attempt + 1` is 100 ms doubled `attempt - 1` times exactly when `attempt <= 37`;
      from 38 on int64 overflows. So up to 38 retries no wait overflows, and with 39 one does. */
  lemma BackoffOverflow(attempt: nat, outOfRange: Duration)
    requires attempt >= 1
    ensures Backoff(attempt, outOfRange) == Pow(2, attempt - 1) * 100 * MILLISECOND <==> attempt <= 37
  {
    PowersOfTwo();
    if attempt <= 37 {
      PowMonotone(2, attempt - 1, 36);
    } else {
      PowMonotone(2, 37, attempt - 1);
    }
  }

  /** While no wait overflows, n posts are separated by 100 ms * (2^(n-1) - 1) of waiting. */
  lemma {:induction false} TotalBackoffClosedForm(posts: nat, outOfRange: Duration)
    requires 1 <= posts <= 38
    ensures TotalBackoff(posts, outOfRange) == (Pow(2, posts - 1) - 1) * 100 * MILLISECOND
  {
    if posts > 1 {
      TotalBackoffClosedForm(posts - 1, outOfRange);
      BackoffOverflow(posts - 1, outOfRange);
      hide Backoff;
    }
  }
}
