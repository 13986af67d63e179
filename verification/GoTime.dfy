/** The parts of Go's `time` package the program relies on.
    An instant is a number of nanoseconds since the zero time (year 1, UTC);
    a duration is a number of nanoseconds that the program keeps in an int64. */
module GoTime {

  type Instant = int
  type Duration = int

  const MICROSECOND: Duration := 1_000
  const MILLISECOND: Duration := 1_000_000
  const SECOND: Duration := 1_000_000_000
  const MINUTE: Duration := 60_000_000_000
  const HOUR: Duration := 3_600_000_000_000
  const MAX_DURATION: Duration := 0x7FFF_FFFF_FFFF_FFFF
  const MIN_DURATION: Duration := -0x8000_0000_0000_0000

  /** `t.Truncate(time.Microsecond)`: down to a whole microsecond since the zero time. */
  function TruncateMicro(t: Instant): (r: Instant)
    ensures r <= t < r + MICROSECOND
    ensures r % MICROSECOND == 0
  {
    t - t % MICROSECOND
  }

  lemma TruncateTwice(t: Instant)
    ensures TruncateMicro(TruncateMicro(t)) == TruncateMicro(t)
  {
  }

  /** `t.Sub(u)` saturates at the limits of int64. */
  function Sub(t: Instant, u: Instant): (d: Duration)
    ensures MIN_DURATION <= d <= MAX_DURATION
    ensures MIN_DURATION <= t - u <= MAX_DURATION ==> u + d == t
    ensures u <= t ==> u <= u + d <= t
  {
    if t - u > MAX_DURATION then MAX_DURATION
    else if t - u < MIN_DURATION then MIN_DURATION
    else t - u
  }

  /** The difference is the int64 nearest to the exact one. */
  lemma SubIsNearest(t: Instant, u: Instant, e: Duration)
    requires MIN_DURATION <= e <= MAX_DURATION
    ensures var (exact, d) := (t - u, Sub(t, u));
      if exact < d then d <= e else if exact > d then e <= d else t == u + d
  {
  }

  /** `d.Round(time.Minute)`: to the nearest minute, halves away from zero,
      saturating where the rounded value leaves int64. */
  function RoundToMinute(d: Duration): (r: Duration)
  {
    if d < 0 then
      var rest := (-d) % MINUTE;
      if rest + rest < MINUTE then d + rest
      else if d - MINUTE + rest >= MIN_DURATION then d - MINUTE + rest
      else MIN_DURATION
    else
      var rest := d % MINUTE;
      if rest + rest < MINUTE then d - rest
      else if d + MINUTE - rest <= MAX_DURATION then d + MINUTE - rest
      else MAX_DURATION
  }

  /** For every int64 the result is a whole number of minutes, within half a minute, and exactly half a minute
      away only on the far side of `d` from zero: the limits of int64 are less than half a minute beyond
      a whole minute, so rounding never saturates. */
  lemma RoundToMinuteNearest(d: Duration)
    requires MIN_DURATION <= d <= MAX_DURATION
    ensures var r := RoundToMinute(d);
      && r % MINUTE == 0
      && -MINUTE <= 2 * (r - d) <= MINUTE
      && (2 * (r - d) == MINUTE ==> d > 0)
      && (2 * (d - r) == MINUTE ==> d < 0)
  {
    var q, rest := MinutesOf(if d < 0 then -d else d);
    WholeMinutes(q);
    WholeMinutes(q + 1);
    WholeMinutes(-q);
    WholeMinutes(-q - 1);
    assert q <= 153_722_867;
  }

  lemma MinutesOf(d: Duration) returns (q: int, rest: int)
    requires d >= 0
    ensures d == q * MINUTE + rest && 0 <= rest < MINUTE && rest == d % MINUTE
  {
    q, rest := d / MINUTE, d % MINUTE;
  }

  lemma WholeMinutes(q: int)
    ensures (q * MINUTE) % MINUTE == 0
  {
  }

  /** Rounding keeps order. */
  lemma RoundToMinuteMonotone(d: Duration, e: Duration)
    requires 0 <= d <= e <= MAX_DURATION
    ensures 0 <= RoundToMinute(d) <= RoundToMinute(e)
  {
    RoundToMinuteNearest(d);
    RoundToMinuteNearest(e);
    var p, q := RoundToMinute(d) / MINUTE, RoundToMinute(e) / MINUTE;
    assert RoundToMinute(d) == p * MINUTE && RoundToMinute(e) == q * MINUTE;
  }

  /** Two durations more than a minute apart round to different minutes. */
  lemma RoundToMinuteSeparates(d: Duration, e: Duration)
    requires 0 <= d && d + MINUTE < e <= MAX_DURATION
    ensures RoundToMinute(d) < RoundToMinute(e)
  {
    RoundToMinuteNearest(d);
    RoundToMinuteNearest(e);
  }

  /** Truncating two instants that are a whole number of microseconds apart keeps the distance. */
  lemma TruncateKeepsDistance(t: Instant, d: Duration)
    requires d % MICROSECOND == 0
    ensures TruncateMicro(t + d) == TruncateMicro(t) + d
  {
    assert (t + d) % MICROSECOND == t % MICROSECOND;
  }
}
