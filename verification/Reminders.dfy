/** Reminder times: percentages of a task's duration, rounded to the minute. */
module Reminders {
  import opened Wrappers
  import opened GoTime
  import opened Doubles
  import opened TimeLists
  import opened TaskDomain

  /** The percentages the tables use, named by their hundredths. */
  datatype ReminderInterval = P35 | P56 | P65 | P70 | P87 | P89 | P96

  function Hundredths(p: ReminderInterval): nat {
    match p
    case P35 => 35 case P56 => 56 case P65 => 65 case P70 => 70
    case P87 => 87 case P89 => 89 case P96 => 96
  }

  /** The double the program stores for a percentage, as a multiple of 2^-54. */
  function Scaled(p: ReminderInterval): nat {
    match p
    case P35 => 0x16666666666666
    case P56 => 0x23d70a3d70a3d8
    case P65 => 0x2999999999999a
    case P70 => 0x2ccccccccccccc
    case P87 => 0x37ae147ae147ae
    case P89 => 0x38f5c28f5c28f6
    case P96 => 0x3d70a3d70a3d70
  }

  /** The stored percentage is a double, and no double is nearer to the decimal constant. */
  lemma PercentageIsNearestDouble(p: ReminderInterval, k: nat)
    requires IsDouble(k)
    ensures IsDouble(Scaled(p))
    ensures Abs(100 * Scaled(p) - Hundredths(p) * TWO54) <= Abs(100 * k - Hundredths(p) * TWO54)
  {
    var m := Scaled(p);
    if p != P35 { assert Ulp(m / 2) == 1; }
    assert Ulp(m) == if p == P35 then 1 else 2;
    var j := DoubleAgainstSpacing(m, k);
  }

  const INTERVALS_SHORT := [P70, P96]
  const INTERVALS_NEAR := [P56, P89]
  const INTERVALS_RELAXED := [P35, P65, P87]

  function IntervalsForType(t: TaskType): seq<ReminderInterval> {
    match t
    case Short => INTERVALS_SHORT
    case Near => INTERVALS_NEAR
    case Relaxed => INTERVALS_RELAXED
    case _ => []
  }

  function IntervalsForDuration(d: Duration): seq<ReminderInterval> {
    if d <= ACTIVE_PERIOD_SHORT then INTERVALS_SHORT
    else if d <= ACTIVE_PERIOD_NEAR then INTERVALS_NEAR
    else INTERVALS_RELAXED
  }

  function Intervals(t: Task): seq<ReminderInterval> {
    if t.taskType == Scheduled then IntervalsForDuration(Sub(t.targetAt, t.createdAt)) else IntervalsForType(t.taskType)
  }

  /** `time.Duration(float64(d) * float64(p))` for d >= 0: both factors are doubles, the product is
      rounded to a double, and the conversion drops the fraction. */
  function ProductMagnitude(d: nat, p: ReminderInterval): (r: Duration)
    ensures r >= 0
  {
    TruncatedProduct(d, Scaled(p))
  }

  /** The same for either sign: rounding and truncation are symmetric about zero. */
  function Product(d: Duration, p: ReminderInterval): Duration {
    if d < 0 then -ProductMagnitude(-d, p) else ProductMagnitude(d, p)
  }

  function Offset(d: Duration, p: ReminderInterval): Duration {
    RoundToMinute(Product(d, p))
  }

  /** Every percentage of the table, as an instant, before any is dropped. */
  function RoundedTimes(created: Instant, d: Duration, ps: seq<ReminderInterval>): (r: seq<Instant>)
    ensures |r| == |ps|
  {
    seq(|ps|, i requires 0 <= i < |ps| => created + Offset(d, ps[i]))
  }

  function ReminderTimes(t: Task): seq<Instant> {
    var rounded := RoundedTimes(t.createdAt, Sub(t.targetAt, t.createdAt), Intervals(t));
    Closed(t.targetAt, KeptTimes(t.targetAt, rounded, |rounded|))
  }

  datatype DeviceInfo = DeviceInfo(deviceId: string, fcmToken: Option<string>)

  datatype ReminderInfo = ReminderInfo(
    taskId: TaskId,
    taskType: TaskType,
    userId: UserId,
    times: seq<Instant>,
    devices: seq<DeviceInfo>,
    color: string)

  /** `CalculateReminderTimes`, which gives nothing for a nil task. */
  method CalculateReminderTimes(task: Option<Task>, userId: UserId, devices: seq<DeviceInfo>)
    returns (info: Option<ReminderInfo>)
    ensures task.None? ==> info == None
    ensures task.Some? ==> info == Some(ReminderInfo(
      task.value.id, task.value.taskType, userId, ReminderTimes(task.value), devices, task.value.color.hex))
  {
    hide Sub, Product, RoundToMinute;
    if task.None? {
      return None;
    }
    var t := task.value;
    var total := Sub(t.targetAt, t.createdAt);
    var percentages;
    if t.taskType == Scheduled {
      percentages := IntervalsForDuration(total);
    } else {
      percentages := IntervalsForType(t.taskType);
    }
    ghost var rounded := RoundedTimes(t.createdAt, total, percentages);
    var times: seq<Instant> := [];
    for i := 0 to |percentages|
      invariant times == KeptTimes(t.targetAt, rounded, i)
    {
      var offset := Product(total, percentages[i]);
      offset := RoundToMinute(offset);
      var reminderTime := t.createdAt + offset;
      if !(reminderTime > t.targetAt) {
        times := times + [reminderTime];
      }
    }
    if |times| == 0 || times[|times| - 1] != t.targetAt {
      times := times + [t.targetAt];
    }
    return Some(ReminderInfo(t.id, t.taskType, userId, times, devices, t.color.hex));
  }

  /** For a duration that is not negative, the product in doubles: the double nearest to the duration, times the stored
      percentage, to the nearest double, without its fraction. */
  lemma ProductInDoubles(d: nat, p: ReminderInterval, d1: nat, r: nat)
    ensures IsNearestDouble(d, d1) && IsNearestDouble(d1 * Scaled(p), r) ==> Product(d, p) == r / 0x40_0000_0000_0000
  {
    hide IsNearestDouble, Round53, Scaled;
    RoundIsTheNearest(d, d1);
    RoundIsTheNearest(d1 * Scaled(p), r);
    assert TruncatedProduct(d, Scaled(p)) == Round53(Round53(d) * Scaled(p)) / TWO54;
    hide TruncatedProduct;
  }

  /** The product is within 4 microseconds of the exact percentage: 1023 ns for turning the
      duration into a double, 512 for the percentage, 1024 for the product, 1 for truncation. */
  lemma ProductError(d: nat, p: ReminderInterval)
    requires d <= MAX_DURATION
    ensures Abs(100 * ProductMagnitude(d, p) - Hundredths(p) * d) <= 100 * 4 * MICROSECOND
  {
    hide Round53;
    var d1 := Round53(d);
    var n := d1 * Scaled(p);
    RoundError(d);
    RoundError(n);
    RoundingErrorsAddUp(d, d1, Hundredths(p), Scaled(p), n, Round53(n));
  }

  lemma RoundingErrorsAddUp(d: nat, d1: nat, h: nat, m: nat, n: nat, r: nat)
    requires d <= MAX_DURATION && h <= 100
    requires Abs(d - d1) <= 1023
    requires Abs(100 * m - h * TWO54) <= 100
    requires n == d1 * m
    requires Abs(n - r) * TWO53 <= n
    ensures Abs(100 * (r / TWO54) - h * d) <= 100 * 4 * MICROSECOND
  {
    var e := 100 * m - h * TWO54;
    Rearrange(d1, h, TWO54, m, e);
    BoundedProduct(d1, e, 100);
    var x, y, z := h * d1, h * d, d1 * e;
    Difference(h, d1, d);
    BoundedProduct(h, d1 - d, 1023);
    MulLe(h, 100, d);
    MulLe(0, h, d);
    DivMod(r, TWO54);
    ErrorBudget(d, d1, x, y, z, n, r, r / TWO54);
  }

  lemma Difference(h: int, a: int, b: int)
    ensures h * (a - b) == h * a - h * b
  {
  }

  lemma Rearrange(a: int, h: int, c: int, m: int, e: int)
    requires 100 * m == h * c + e
    ensures 100 * (a * m) == c * (h * a) + a * e
  {
    assert a * (100 * m) == a * (h * c + e);
  }

  /** The same with every product of two variables named, so that only linear arithmetic is left. */
  lemma ErrorBudget(d: nat, d1: nat, x: int, y: int, z: int, n: nat, r: nat, q: nat)
    requires d <= MAX_DURATION && 0 <= y <= 100 * d
    requires Abs(d - d1) <= 1023 && Abs(x - y) <= 102300 && Abs(z) <= 100 * d1
    requires 100 * n == TWO54 * x + z
    requires Abs(n - r) * TWO53 <= n
    requires q * TWO54 <= r < q * TWO54 + TWO54
    ensures Abs(100 * q - y) <= 100 * 4 * MICROSECOND
  {
  }

  lemma BoundedProduct(a: nat, b: int, bound: nat)
    requires Abs(b) <= bound
    ensures Abs(a * b) <= a * bound
  {
    MulLe(b, bound, a);
    MulLe(0 - bound, b, a);
  }

  lemma ProductRange(d: Duration, p: ReminderInterval)
    requires 0 <= d <= MAX_DURATION
    ensures 0 <= Product(d, p) <= MAX_DURATION - MINUTE
    ensures Abs(100 * Product(d, p) - Hundredths(p) * d) <= 100 * 4 * MICROSECOND
  {
    ProductError(d, p);
    hide ProductMagnitude;
    MulLe(Hundredths(p), 96, d);
  }

  /** Every percentage offset is a whole number of minutes and lies within half a minute and
      4 microseconds of the exact percentage, for every duration up to the int64 limit. */
  lemma OffsetError(d: Duration, p: ReminderInterval)
    requires 0 <= d <= MAX_DURATION
    ensures Offset(d, p) % MINUTE == 0
    ensures Abs(100 * Offset(d, p) - Hundredths(p) * d) <= 100 * (30 * SECOND + 4 * MICROSECOND)
  {
    ProductRange(d, p);
    hide Product, RoundToMinute;
    RoundToMinuteNearest(Product(d, p));
  }

  /** A larger percentage never gives an earlier reminder. */
  lemma OffsetMonotone(d: Duration, p: ReminderInterval, q: ReminderInterval)
    requires 0 <= d <= MAX_DURATION
    requires Hundredths(p) <= Hundredths(q)
    ensures 0 <= Offset(d, p) <= Offset(d, q)
  {
    ProductRange(d, p);
    ProductRange(d, q);
    ProductMonotone(d, Scaled(p), Scaled(q));
    hide TruncatedProduct, RoundToMinute;
    RoundToMinuteMonotone(Product(d, p), Product(d, q));
  }

  lemma ProductMonotone(d: nat, m: nat, n: nat)
    requires m <= n
    ensures TruncatedProduct(d, m) <= TruncatedProduct(d, n)
  {
    hide Round53;
    MulLe(m, n, Round53(d));
    RoundMonotone(Round53(d) * m, Round53(d) * n);
    DivMonotone(Round53(Round53(d) * m), Round53(Round53(d) * n));
  }

  lemma DivMonotone(m: nat, n: nat)
    requires m <= n
    ensures m / TWO54 <= n / TWO54
  {
  }

  lemma RoundedTimesSorted(created: Instant, d: Duration, ps: seq<ReminderInterval>)
    requires 0 <= d <= MAX_DURATION
    requires forall i, j :: 0 <= i < j < |ps| ==> Hundredths(ps[i]) <= Hundredths(ps[j])
    ensures Sorted(RoundedTimes(created, d, ps))
    ensures forall i :: 0 <= i < |ps| ==> created <= RoundedTimes(created, d, ps)[i]
  {
    forall i, j | 0 <= i <= j < |ps|
      ensures 0 <= Offset(d, ps[i]) <= Offset(d, ps[j])
    {
      OffsetMonotone(d, ps[i], ps[j]);
    }
  }

  /** The reminders of any task whose target does not precede its creation: never empty, in order,
      inside [created, target], ending at the target, and otherwise a prefix of the rounded percentages. */
  lemma ReminderTimesShape(t: Task) returns (k: nat)
    requires t.createdAt <= t.targetAt
    ensures var ts := ReminderTimes(t);
      var rounded := RoundedTimes(t.createdAt, Sub(t.targetAt, t.createdAt), Intervals(t));
      && |ts| > 0 && ts[|ts| - 1] == t.targetAt
      && Sorted(ts)
      && (forall i :: 0 <= i < |ts| ==> t.createdAt <= ts[i] <= t.targetAt)
      && k <= |rounded| && (ts == rounded[..k] || ts == rounded[..k] + [t.targetAt])
      && (forall i :: 0 <= i < |rounded| ==> (i < k <==> rounded[i] <= t.targetAt))
      && (StrictlySorted(ts) <==> StrictlySorted(rounded[..k]))
  {
    TableGaps(t);
    hide Intervals, Offset, Sub;
    var d := Sub(t.targetAt, t.createdAt);
    RoundedTimesSorted(t.createdAt, d, Intervals(t));
    k := ClosedShape(t.createdAt, t.targetAt, RoundedTimes(t.createdAt, d, Intervals(t)));
  }

  /** When a task of this type and length is to be reminded of, in hundredths of its length: a scheduled task
      like a short one up to half an hour, like a near one up to three hours, else like a relaxed one. */
  function DuePercentages(taskType: TaskType, d: Duration): seq<nat> {
    match taskType
    case Short => [70, 96]
    case Near => [56, 89]
    case Relaxed => [35, 65, 87]
    case Scheduled =>
      if d <= 1_800_000_000_000 then [70, 96] else if d <= 10_800_000_000_000 then [56, 89] else [35, 65, 87]
    case OtherType(_) => []
  }

  /** An instant is due at `hundredths` of the duration: a whole number of minutes after the
      creation, within half a minute and 4 microseconds of the exact percentage. */
  predicate IsDueAt(time: Instant, created: Instant, d: Duration, hundredths: nat) {
    && (time - created) % 60_000_000_000 == 0
    && Abs(100 * (time - created) - hundredths * d) <= 100 * (30_000_000_000 + 4_000)
  }

  /** At most that error is left of the duration at this percentage. */
  predicate IsAlmostOver(d: Duration, hundredths: nat) {
    100 * d < hundredths * d + 100 * (30_000_000_000 + 4_000)
  }

  /** The reminders of every task with target >= created, without naming how they are computed: the first `k` due
      percentages in order, then the target (the last of them may be the target). A percentage is left out
      only if it falls within that error of the target or after it. */
  lemma RemindedAsDue(t: Task) returns (k: nat)
    requires t.createdAt <= t.targetAt
    ensures var ts := ReminderTimes(t);
      var d := if t.targetAt - t.createdAt <= MAX_DURATION then t.targetAt - t.createdAt else MAX_DURATION;
      var due := DuePercentages(t.taskType, d);
      && k <= |due| && k <= |ts| <= k + 1
      && (forall i :: 0 <= i < k ==> IsDueAt(ts[i], t.createdAt, d, due[i]))
      && ts[|ts| - 1] == t.targetAt
      && (forall i :: k <= i < |due| ==> IsAlmostOver(d, due[i]))
  {
    SubIsDistance(t.targetAt, t.createdAt);
    hide Offset, Sub, ReminderTimes, IsDueAt, IsAlmostOver, Intervals, DuePercentages, RoundedTimes;
    k := ReminderTimesShape(t);
    var d := Sub(t.targetAt, t.createdAt);
    var due := DueOffsets(t, d);
    var (ts, rounded) := (ReminderTimes(t), RoundedTimes(t.createdAt, d, Intervals(t)));
    forall i | 0 <= i < k
      ensures IsDueAt(ts[i], t.createdAt, d, due[i])
    {
      assert ts[i] == rounded[i];
    }
    forall i | k <= i < |due|
      ensures IsAlmostOver(d, due[i])
    {
      DueAfter(rounded[i], t.createdAt, t.targetAt, d, due[i]);
    }
  }

  lemma SubIsDistance(t: Instant, u: Instant)
    requires u <= t
    ensures Sub(t, u) == if t - u <= MAX_DURATION then t - u else MAX_DURATION
  {
  }

  lemma DueOffsets(t: Task, d: Duration) returns (due: seq<nat>)
    requires 0 <= d <= MAX_DURATION && d == Sub(t.targetAt, t.createdAt)
    ensures due == DuePercentages(t.taskType, d) && |due| == |Intervals(t)|
    ensures forall i :: 0 <= i < |due| ==>
      IsDueAt(RoundedTimes(t.createdAt, d, Intervals(t))[i], t.createdAt, d, due[i])
  {
    hide Intervals, DuePercentages, Offset, Sub, IsDueAt, Hundredths;
    SameTables(t);
    due := DuePercentages(t.taskType, d);
    var ps := Intervals(t);
    forall i | 0 <= i < |ps|
      ensures IsDueAt(RoundedTimes(t.createdAt, d, ps)[i], t.createdAt, d, due[i])
    {
      OffsetIsDue(t.createdAt, d, ps[i]);
    }
  }

  lemma SameTables(t: Task)
    ensures var due := DuePercentages(t.taskType, Sub(t.targetAt, t.createdAt));
      |due| == |Intervals(t)| && forall i :: 0 <= i < |due| ==> due[i] == Hundredths(Intervals(t)[i])
  {
    hide Sub;
  }

  lemma OffsetIsDue(created: Instant, d: Duration, p: ReminderInterval)
    requires 0 <= d <= MAX_DURATION
    ensures IsDueAt(created + Offset(d, p), created, d, Hundredths(p))
  {
    OffsetError(d, p);
    hide Offset, Hundredths;
  }

  lemma DueAfter(time: Instant, created: Instant, target: Instant, d: Duration, hundredths: nat)
    requires IsDueAt(time, created, d, hundredths) && time > target && d <= target - created
    ensures IsAlmostOver(d, hundredths)
  {
    var exact := hundredths * d;
    assert 100 * (time - created) - exact <= 100 * (30_000_000_000 + 4_000);
  }

  /** The tables' percentages lie at least 0.22 apart. */
  lemma TableGaps(t: Task)
    ensures forall i, j :: 0 <= i < j < |Intervals(t)| ==>
        Hundredths(Intervals(t)[i]) + 22 <= Hundredths(Intervals(t)[j])
  {
  }

  lemma OffsetsSeparate(d: Duration, p: ReminderInterval, q: ReminderInterval)
    requires 5 * MINUTE <= d <= MAX_DURATION
    requires Hundredths(p) + 22 <= Hundredths(q)
    ensures Offset(d, p) < Offset(d, q)
  {
    ProductRange(d, p);
    ProductRange(d, q);
    hide Product, RoundToMinute;
    MulLe(Hundredths(p) + 22, Hundredths(q), d);
    Distribute(Hundredths(p), 22, d);
    RoundToMinuteSeparates(Product(d, p), Product(d, q));
  }

  lemma Distribute(a: int, b: int, c: int)
    ensures (a + b) * c == a * c + b * c
  {
  }

  /** From five minutes on no two reminders coincide. */
  lemma StrictFromFiveMinutes(t: Task)
    requires t.createdAt + 5 * MINUTE <= t.targetAt
    ensures StrictlySorted(ReminderTimes(t))
  {
    var d, ps := Sub(t.targetAt, t.createdAt), Intervals(t);
    assert d >= 5 * MINUTE;
    TableGaps(t);
    var k := ReminderTimesShape(t);
    hide Intervals, Offset, Sub, ReminderTimes;
    var rounded := RoundedTimes(t.createdAt, d, ps);
    forall i, j | 0 <= i < j < k
      ensures rounded[i] < rounded[j]
    {
      OffsetsSeparate(d, ps[i], ps[j]);
    }
  }

  lemma NoneDropped(target: Instant, times: seq<Instant>, k: nat)
    requires k <= |times|
    requires forall i :: 0 <= i < |times| ==> times[i] <= target && (i < k <==> times[i] <= target)
    ensures times[..k] == times
  {
    if times != [] {
      assert times[|times| - 1] <= target;
    }
  }

  /** On whole minutes every percentage reminder is kept. */
  lemma WholeMinutesDropNothing(t: Task)
    requires t.createdAt <= t.targetAt
    requires t.targetAt - t.createdAt <= MAX_DURATION
    requires (t.targetAt - t.createdAt) % MINUTE == 0
    ensures var rounded := RoundedTimes(t.createdAt, t.targetAt - t.createdAt, Intervals(t));
      && (forall i :: 0 <= i < |rounded| ==> rounded[i] <= t.targetAt)
      && (ReminderTimes(t) == rounded || ReminderTimes(t) == rounded + [t.targetAt])
      && (StrictlySorted(ReminderTimes(t)) <==> StrictlySorted(rounded))
  {
    hide Intervals, Offset, ReminderTimes;
    var k := ReminderTimesShape(t);
    var d, ps := t.targetAt - t.createdAt, Intervals(t);
    assert d == Sub(t.targetAt, t.createdAt);
    var rounded := RoundedTimes(t.createdAt, d, ps);
    forall i | 0 <= i < |rounded|
      ensures rounded[i] <= t.targetAt
    {
      OffsetAtMost(d, ps[i]);
    }
    NoneDropped(t.targetAt, rounded, k);
  }

  /** A percentage of a whole number of minutes does not round past it. */
  lemma OffsetAtMost(d: Duration, p: ReminderInterval)
    requires 0 <= d <= MAX_DURATION && d % MINUTE == 0
    ensures Offset(d, p) <= d
  {
    var k := OffsetInMinutes(d, p);
    hide Offset, Product;
    MulLe(Hundredths(p), 96, d);
    var n := d / MINUTE;
    assert d == n * MINUTE;
    assert k <= n;
  }

  /** The offset as a number of minutes, with what linear arithmetic needs to know about it. */
  lemma OffsetInMinutes(d: Duration, p: ReminderInterval) returns (k: nat)
    requires 0 <= d <= MAX_DURATION
    ensures Offset(d, p) == k * MINUTE
    ensures -MINUTE <= 2 * (k * MINUTE - Product(d, p)) <= MINUTE
    ensures Abs(100 * Product(d, p) - Hundredths(p) * d) <= 100 * 4 * MICROSECOND
  {
    ProductRange(d, p);
    hide Product, RoundToMinute;
    RoundToMinuteNearest(Product(d, p));
    k := Offset(d, p) / MINUTE;
  }

  /** From twelve minutes on every percentage reminder is kept, whatever the length and the type. */
  lemma TwelveMinutesDropNothing(t: Task)
    requires t.createdAt + 12 * MINUTE <= t.targetAt
    ensures var rounded := RoundedTimes(t.createdAt, Sub(t.targetAt, t.createdAt), Intervals(t));
      && (forall i :: 0 <= i < |rounded| ==> rounded[i] <= t.targetAt)
      && (ReminderTimes(t) == rounded || ReminderTimes(t) == rounded + [t.targetAt])
  {
    assert 12 * MINUTE <= Sub(t.targetAt, t.createdAt);
    hide Intervals, Offset, ReminderTimes, Sub;
    var k := ReminderTimesShape(t);
    var d, ps := Sub(t.targetAt, t.createdAt), Intervals(t);
    var rounded := RoundedTimes(t.createdAt, d, ps);
    forall i | 0 <= i < |rounded|
      ensures rounded[i] <= t.targetAt
    {
      LongOffsetAtMost(d, ps[i]);
    }
    NoneDropped(t.targetAt, rounded, k);
  }

  lemma LongOffsetAtMost(d: Duration, p: ReminderInterval)
    requires 12 * MINUTE <= d <= MAX_DURATION
    ensures Offset(d, p) <= d
  {
    var k := OffsetInMinutes(d, p);
    hide Offset, Product;
    MulLe(Hundredths(p), 96, d);
    var (product, hd) := (Product(d, p), Hundredths(p) * d);
    assert k * MINUTE <= d;
  }

  /** Twelve minutes is the least such length: a scheduled task one microsecond shorter loses its 96 % reminder. */
  lemma JustUnderTwelveMinutesDropsOne(t: Task)
    requires t.taskType == Scheduled && t.targetAt == t.createdAt + 12 * MINUTE - MICROSECOND
    ensures Intervals(t) == [P70, P96]
    ensures RoundedTimes(t.createdAt, t.targetAt - t.createdAt, Intervals(t))[1] > t.targetAt
    ensures |ReminderTimes(t)| == 2 && ReminderTimes(t)[0] < ReminderTimes(t)[1] == t.targetAt
  {
    OffsetsUnderTwelveMinutes();
    assert Sub(t.targetAt, t.createdAt) == 12 * MINUTE - MICROSECOND;
    hide Offset, ReminderTimes, Sub;
    var last := ReminderTimesShape(t);
    var rounded := RoundedTimes(t.createdAt, 12 * MINUTE - MICROSECOND, Intervals(t));
    assert rounded[0] == t.createdAt + 8 * MINUTE && rounded[1] == t.createdAt + 12 * MINUTE;
    assert last == 1;
  }

  lemma OffsetsUnderTwelveMinutes()
    ensures Offset(12 * MINUTE - MICROSECOND, P70) == 8 * MINUTE
    ensures Offset(12 * MINUTE - MICROSECOND, P96) == 12 * MINUTE
  {
    hide Offset, Product;
    var k := OffsetInMinutes(12 * MINUTE - MICROSECOND, P70);
    var n := OffsetInMinutes(12 * MINUTE - MICROSECOND, P96);
  }

  predicate IsPeriodic(t: TaskType) {
    t.Short? || t.Near? || t.Relaxed?
  }

  /** Exactly which periods of whole minutes, as custom periods are, give reminders that all differ. */
  lemma StrictOnWholeMinutes(t: Task, m: nat)
    requires IsPeriodic(t.taskType)
    requires m >= 1 && m * MINUTE <= MAX_DURATION
    requires t.targetAt == t.createdAt + m * MINUTE
    ensures StrictlySorted(ReminderTimes(t)) <==> if t.taskType.Relaxed? then m == 3 || m >= 5 else m >= 2
  {
    if m >= 5 {
      StrictFromFiveMinutes(t);
    } else {
      StrictBelowFiveMinutes(t, m);
    }
  }

  lemma StrictBelowFiveMinutes(t: Task, m: nat)
    requires IsPeriodic(t.taskType)
    requires 1 <= m <= 4
    requires t.targetAt == t.createdAt + m * MINUTE
    ensures StrictlySorted(ReminderTimes(t)) <==> if t.taskType.Relaxed? then m == 3 else m >= 2
  {
    hide Offset, ReminderTimes, Sub, NearestPercent;
    WholeMinutesDropNothing(t);
    SmallComparisons(m);
    var ps := IntervalsForType(t.taskType);
    var rounded := RoundedTimes(t.createdAt, m * MINUTE, ps);
    forall i | 0 <= i < |ps|
      ensures rounded[i] == t.createdAt + NearestPercent(m, ps[i]) * MINUTE
    {
      SmallOffset(m, ps[i]);
    }
    if t.taskType.Relaxed? {
      ThreeStrict(rounded);
    } else {
      TwoStrict(rounded);
    }
  }

  lemma TwoStrict(s: seq<Instant>)
    requires |s| == 2
    ensures StrictlySorted(s) <==> s[0] < s[1]
  {
  }

  lemma ThreeStrict(s: seq<Instant>)
    requires |s| == 3
    ensures StrictlySorted(s) <==> s[0] < s[1] < s[2]
  {
  }

  /** The percentage of `m`, to the nearest whole number. */
  function NearestPercent(m: nat, p: ReminderInterval): nat {
    (Hundredths(p) * m + 50) / 100
  }

  /** Under five minutes no percentage falls near a half minute, so float error cannot matter. */
  lemma SmallOffset(m: nat, p: ReminderInterval)
    requires 1 <= m <= 4
    ensures Offset(m * MINUTE, p) == NearestPercent(m, p) * MINUTE
  {
    var k := OffsetInMinutes(m * MINUTE, p);
    SmallCases(m, p);
    NearestMinute(k, NearestPercent(m, p), Product(m * MINUTE, p), Hundredths(p) * m);
  }

  lemma NearestMinute(k: nat, kk: nat, product: int, hm: nat)
    requires -MINUTE <= 2 * (k * MINUTE - product) <= MINUTE
    requires Abs(100 * product - hm * MINUTE) <= 100 * 4 * MICROSECOND
    requires 100 * kk - 49 <= hm <= 100 * kk + 49
    ensures k == kk
  {
  }

  lemma SmallCases(m: nat, p: ReminderInterval)
    requires 1 <= m <= 4
    ensures Hundredths(p) * (m * MINUTE) == Hundredths(p) * m * MINUTE
    ensures 100 * NearestPercent(m, p) - 49 <= Hundredths(p) * m <= 100 * NearestPercent(m, p) + 49
  {
    assert m == 1 || m == 2 || m == 3 || m == 4;
  }

  lemma SmallComparisons(m: nat)
    requires 1 <= m <= 4
    ensures NearestPercent(m, P70) < NearestPercent(m, P96) <==> m >= 2
    ensures NearestPercent(m, P56) < NearestPercent(m, P89) <==> m >= 2
    ensures NearestPercent(m, P35) < NearestPercent(m, P65) < NearestPercent(m, P87) <==> m == 3
  {
    assert m == 1 || m == 2 || m == 3 || m == 4;
  }

  /** 0.70 of 25 minutes is 17.5 in exact arithmetic, but the program's product falls just
      below and rounds down: percentages are not exact hundredths. */
  lemma SeventyPercentOfTwentyFiveMinutes()
    ensures Hundredths(P70) * (25 * MINUTE) == 100 * (17 * MINUTE + 30 * SECOND)
    ensures Offset(25 * MINUTE, P70) == 17 * MINUTE
  {
    var n := 25 * MINUTE * Scaled(P70);
    RoundExact(25 * MINUTE);
    PowersOfTwo();
    UlpFromBinade(n, 41, 0x200_0000_0000);
  }

  /** The spacing around a number whose highest bit is known. */
  lemma {:induction false} UlpFromBinade(n: nat, e: nat, u: nat)
    requires u == Pow(2, e) && TWO52 * u <= n < TWO53 * u
    ensures Ulp(n) == u
  {
    if e > 0 {
      UlpFromBinade(n / 2, e - 1, u / 2);
    }
  }
}
