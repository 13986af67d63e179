/** Tasks as the domain layer builds and changes them. */
module TaskDomain {
  import opened Wrappers
  import opened GoTime
  import Color

  /** Identifiers are UUIDs; only their identity matters here. */
  type TaskId = nat
  type UserId = nat

  /** The program's task types are text; `OtherType` stands for any other text. */
  datatype TaskType = Short | Near | Relaxed | Scheduled | OtherType(name: string)

  /** Task statuses are text too. */
  datatype Status = Active | Completed | PendingReminders | OtherStatus(name: string)

  datatype Task = Task(
    id: TaskId,
    userId: UserId,
    title: string,
    taskType: TaskType,
    status: Status,
    description: string,
    scheduledAt: Option<Instant>,
    createdAt: Instant,
    targetAt: Instant,
    color: Color.Color)

  datatype TaskError =
    | TitleTooLong
    | ScheduledAtRequired
    | ScheduledAtBeforeCreatedAt
    | ScheduledAtNotAllowed
    | BadColor(colorError: Color.ColorError)
    | NoFieldsToUpdate
    | InvalidUpdateField
    | InvalidTaskType
    | InvalidTaskStatus
    | IdGeneration

  const MAX_TITLE := 500

  const ACTIVE_PERIOD_SHORT: Duration := 30 * MINUTE
  const ACTIVE_PERIOD_NEAR: Duration := 3 * HOUR
  const ACTIVE_PERIOD_RELAXED: Duration := 24 * HOUR

  function ActivePeriodForType(t: TaskType): Duration {
    match t
    case Short => ACTIVE_PERIOD_SHORT
    case Near => ACTIVE_PERIOD_NEAR
    case Relaxed => ACTIVE_PERIOD_RELAXED
    case _ => 0
  }

  function Truncated(t: Option<Instant>): Option<Instant> {
    if t.Some? then Some(TruncateMicro(t.value)) else None
  }

  /** `NewTask`: truncates the times to microseconds, then checks in the program's order. */
  function NewTask(id: TaskId, userId: UserId, title: string, taskType: TaskType, status: Status,
                   description: string, scheduledAt: Option<Instant>, createdAt: Instant,
                   targetAt: Instant, color: Color.Color): Result<Task, TaskError>
  {
    var created := TruncateMicro(createdAt);
    var target := TruncateMicro(targetAt);
    var scheduled := Truncated(scheduledAt);
    if |title| > MAX_TITLE then Err(TitleTooLong)
    else if taskType == Scheduled && scheduled.None? then Err(ScheduledAtRequired)
    else if taskType == Scheduled && scheduled.value < created then Err(ScheduledAtBeforeCreatedAt)
    else if taskType != Scheduled && scheduled.Some? then Err(ScheduledAtNotAllowed)
    else if Color.Validate(color).Some? then Err(BadColor(Color.Validate(color).value))
    else Ok(Task(id, userId, title, taskType, status, description, scheduled, created, target, color))
  }

  /** What is wrong with the parts of a task, the first fault first. Times count in whole microseconds. */
  function TaskFault(title: string, taskType: TaskType, scheduledAt: Option<Instant>, createdAt: Instant, color: string)
    : Option<TaskError>
  {
    if |title| > 500 then Some(TitleTooLong)
    else if taskType == Scheduled && scheduledAt.None? then Some(ScheduledAtRequired)
    else if taskType == Scheduled && scheduledAt.value / 1000 < createdAt / 1000 then Some(ScheduledAtBeforeCreatedAt)
    else if taskType != Scheduled && scheduledAt.Some? then Some(ScheduledAtNotAllowed)
    else match Color.NewColor(color)
      case Ok(_) => None
      case Err(e) => Some(BadColor(e))
  }

  lemma TruncateIsFloor(t: Instant)
    ensures TruncateMicro(t) == t / 1000 * 1000
  {
  }

  /** Exactly which parts make a task, and that the task has those parts, its times cut to whole microseconds. */
  lemma NewTaskExactly(id: TaskId, userId: UserId, title: string, taskType: TaskType, status: Status,
                       description: string, scheduledAt: Option<Instant>, createdAt: Instant,
                       targetAt: Instant, color: Color.Color)
    ensures var r := NewTask(id, userId, title, taskType, status, description, scheduledAt, createdAt, targetAt, color);
      match TaskFault(title, taskType, scheduledAt, createdAt, color.hex)
      case Some(e) => r == Err(e)
      case None =>
        && r.Ok? && var t := r.value;
        && t.id == id && t.userId == userId && t.title == title && t.taskType == taskType && t.status == status
        && t.description == description && t.color == color
        && t.createdAt == createdAt / 1000 * 1000 && t.targetAt == targetAt / 1000 * 1000
        && t.scheduledAt == (if scheduledAt.Some? then Some(scheduledAt.value / 1000 * 1000) else None)
  {
    TruncateIsFloor(createdAt);
    TruncateIsFloor(targetAt);
    TruncateIsFloor(Or(scheduledAt, 0));
    Color.NewColorNormalizes("", color);
    hide TruncateMicro, Color.Validate, Color.NewColor, Color.IsNormal;
  }

  /** `NewTask` on the fields of a task. */
  function Rebuild(t: Task): Result<Task, TaskError> {
    NewTask(t.id, t.userId, t.title, t.taskType, t.status, t.description, t.scheduledAt, t.createdAt, t.targetAt,
        t.color)
  }

  /** `CreateTask`: the clock reading `now` and a fresh id (if none is given) come from outside. */
  function CreateTask(givenId: Option<TaskId>, newId: Option<TaskId>, now: Instant, userId: UserId, title: string,
                      taskType: TaskType, description: string, scheduledAt: Option<Instant>,
                      color: Color.Color, customPeriod: Option<Duration>): Result<Task, TaskError>
  {
    if givenId.None? && newId.None? then Err(IdGeneration)
    else
      var id := if givenId.Some? then givenId.value else newId.value;
      var target :=
        if taskType == Scheduled then
          if scheduledAt.Some? then scheduledAt.value else 0
        else
          now + if customPeriod.Some? then customPeriod.value else ActivePeriodForType(taskType);
      NewTask(id, userId, title, taskType, PendingReminders, description, scheduledAt, now, target, color)
  }

  datatype TaskUpdate = TaskUpdate(
    status: Option<Status>,
    title: Option<string>,
    description: Option<string>,
    scheduledAt: Option<Instant>,
    clearScheduledAt: bool,
    color: Option<Color.Color>)

  const NO_UPDATE := TaskUpdate(None, None, None, None, false, None)

  predicate HasUpdates(u: TaskUpdate) {
    u.status.Some? || u.title.Some? || u.description.Some? || u.scheduledAt.Some? || u.clearScheduledAt || u.color.Some?
  }

  function Or<T>(o: Option<T>, default: T): T {
    if o.Some? then o.value else default
  }

  /** `Task.ApplyUpdate`. */
  function ApplyUpdate(t: Task, u: TaskUpdate): Result<Task, TaskError> {
    if !HasUpdates(u) then Err(NoFieldsToUpdate)
    else
      var scheduled := if u.clearScheduledAt then None else if u.scheduledAt.Some? then u.scheduledAt
          else t.scheduledAt;
      var target := if t.taskType == Scheduled && scheduled.Some? then scheduled.value else t.targetAt;
      NewTask(t.id, t.userId, Or(u.title, t.title), t.taskType, Or(u.status, t.status),
              Or(u.description, t.description), scheduled, t.createdAt, target, Or(u.color, t.color))
  }

  /** What a task row must satisfy to be read back: it is one that `NewTask` gives. */
  predicate WellFormed(t: Task) {
    && Rebuild(t) == Ok(t)
    && Color.IsNormal(t.color)
    && !t.taskType.OtherType?
    && !t.status.OtherStatus?
  }

  /** The same, said of the fields. */
  lemma WellFormedMeaning(t: Task)
    ensures WellFormed(t) <==>
      && |t.title| <= 500 && Color.IsNormal(t.color)
      && (t.taskType.Scheduled? <==> t.scheduledAt.Some?)
      && t.taskType in {Short, Near, Relaxed, Scheduled} && t.status in {Active, Completed, PendingReminders}
      && t.createdAt % 1000 == 0 && t.targetAt % 1000 == 0
      && (t.scheduledAt.Some? ==> t.scheduledAt.value % 1000 == 0 && t.createdAt <= t.scheduledAt.value)
  {
    Color.NewColorNormalizes("", t.color);
    hide Color.Validate, Color.NewColor, Color.IsNormal;
    MultiplesOrder(t.createdAt, Or(t.scheduledAt, 0));
  }

  lemma MultiplesOrder(a: int, b: int)
    ensures a % 1000 == 0 && b % 1000 == 0 ==> (a / 1000 <= b / 1000 <==> a <= b)
  {
  }

  /** A scheduled task's target is its scheduled time, and no target precedes the creation. */
  predicate TimesAgree(t: Task) {
    && (t.taskType == Scheduled ==> t.scheduledAt == Some(t.targetAt))
    && (t.taskType != Scheduled ==> t.scheduledAt == None)
    && t.createdAt <= t.targetAt
  }

  predicate Good(t: Task) {
    WellFormed(t) && TimesAgree(t)
  }

  /** Truncation and the checks of `NewTask` are idempotent: what it built once, it builds again. */
  lemma NewTaskIdempotent(id: TaskId, userId: UserId, title: string, taskType: TaskType, status: Status,
                          description: string, scheduledAt: Option<Instant>, createdAt: Instant,
                          targetAt: Instant, color: Color.Color)
    ensures var r := NewTask(id, userId, title, taskType, status, description, scheduledAt, createdAt, targetAt, color);
      r.Ok? ==> Rebuild(r.value) == r
  {
    TruncateTwice(createdAt);
    TruncateTwice(targetAt);
    TruncateTwice(Or(scheduledAt, 0));
    hide TruncateMicro, Color.Validate;
  }

  /** Every task that `CreateTask` builds from a known type and a parsed colour, with a
      positive custom period of whole microseconds, is good and still pending. */
  lemma CreateTaskGood(givenId: Option<TaskId>, newId: Option<TaskId>, now: Instant, userId: UserId, title: string,
                       taskType: TaskType, description: string, scheduledAt: Option<Instant>,
                       color: Color.Color, customPeriod: Option<Duration>)
    requires !taskType.OtherType?
    requires Color.IsNormal(color)
    requires customPeriod.Some? ==> customPeriod.value > 0 && customPeriod.value % MICROSECOND == 0
    ensures var r := CreateTask(givenId, newId, now, userId, title, taskType, description, scheduledAt, color,
        customPeriod);
      r.Ok? ==>
        && Good(r.value) && r.value.status == PendingReminders
        && Some(r.value.id) == (if givenId.Some? then givenId else newId)
        && r.value.userId == userId && r.value.title == title && r.value.taskType == taskType
        && r.value.description == description && r.value.color == color
        && r.value.createdAt == TruncateMicro(now) && r.value.scheduledAt == Truncated(scheduledAt)
        && (taskType != Scheduled ==>
              r.value.targetAt - r.value.createdAt ==
              if customPeriod.Some? then customPeriod.value else ActivePeriodForType(taskType))
  {
    hide TruncateMicro, WellFormed, ActivePeriodForType, Color.Validate, Color.IsNormal;
    var period := if customPeriod.Some? then customPeriod.value else ActivePeriodForType(taskType);
    var id := if givenId.Some? then givenId.value else Or(newId, 0);
    var target := if taskType == Scheduled then Or(scheduledAt, 0) else now + period;
    DefaultPeriods(taskType);
    TruncateKeepsDistance(now, period);
    NewTaskWellFormed(id, userId, title, taskType, PendingReminders, description, scheduledAt, now, target, color);
  }

  /** What `NewTask` builds from a known type and status and a parsed colour is well formed. */
  lemma NewTaskWellFormed(id: TaskId, userId: UserId, title: string, taskType: TaskType, status: Status,
                          description: string, scheduledAt: Option<Instant>, createdAt: Instant,
                          targetAt: Instant, color: Color.Color)
    requires !taskType.OtherType? && !status.OtherStatus? && Color.IsNormal(color)
    ensures var r := NewTask(id, userId, title, taskType, status, description, scheduledAt, createdAt, targetAt, color);
      r.Ok? ==> WellFormed(r.value)
  {
    NewTaskIdempotent(id, userId, title, taskType, status, description, scheduledAt, createdAt, targetAt, color);
    hide TruncateMicro, Rebuild, Color.Validate, Color.IsNormal;
  }

  lemma DefaultPeriods(t: TaskType)
    ensures 0 <= ActivePeriodForType(t) <= ACTIVE_PERIOD_RELAXED
    ensures ActivePeriodForType(t) % MINUTE == 0
  {
  }

  /** An update of a good task with a known status and a parsed colour gives a good task, and it never
      changes the id, the owner, the type or the creation time; it never clears a scheduled time. */
  lemma ApplyUpdateGood(t: Task, u: TaskUpdate)
    requires Good(t)
    requires u.status.Some? ==> !u.status.value.OtherStatus?
    requires u.color.Some? ==> Color.IsNormal(u.color.value)
    ensures var r := ApplyUpdate(t, u);
      r.Ok? ==>
        && Good(r.value)
        && r.value.id == t.id && r.value.userId == t.userId
        && r.value.taskType == t.taskType && r.value.createdAt == t.createdAt
        && (t.scheduledAt.Some? ==> r.value.scheduledAt.Some?)
        && !(u.clearScheduledAt && t.taskType == Scheduled)
  {
    hide TruncateMicro, Color.Validate, Color.IsNormal;
    var scheduled := if u.clearScheduledAt then None else if u.scheduledAt.Some? then u.scheduledAt else t.scheduledAt;
    var target := if t.taskType == Scheduled && scheduled.Some? then scheduled.value else t.targetAt;
    NewTaskWellFormed(t.id, t.userId, Or(u.title, t.title), t.taskType, Or(u.status, t.status),
                      Or(u.description, t.description), scheduled, t.createdAt, target, Or(u.color, t.color));
  }

  datatype CompletedTask = CompletedTask(
    id: TaskId,
    userId: UserId,
    title: string,
    taskType: TaskType,
    description: string,
    scheduledAt: Option<Instant>,
    createdAt: Instant,
    targetAt: Instant,
    color: Color.Color,
    completedAt: Instant)

  function NewCompletedTask(t: Task, completedAt: Instant): CompletedTask {
    CompletedTask(t.id, t.userId, t.title, t.taskType, t.description, t.scheduledAt, t.createdAt, t.targetAt, t.color,
                  TruncateMicro(completedAt))
  }
}
