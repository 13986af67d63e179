/** Rows of the `tasks` table: types, statuses and colours are text columns. */
module TaskRecords {
  import opened Wrappers
  import opened GoTime
  import opened TaskDomain
  import Color

  datatype TaskRecord = TaskRecord(
    id: TaskId,
    userId: UserId,
    title: string,
    taskType: string,
    status: string,
    description: string,
    scheduledAt: Option<Instant>,
    createdAt: Instant,
    targetAt: Instant,
    color: string)

  function TypeText(t: TaskType): string {
    match t
    case Short => "short"
    case Near => "near"
    case Relaxed => "relaxed"
    case Scheduled => "scheduled"
    case OtherType(name) => name
  }

  function NewType(s: string): Result<TaskType, TaskError> {
    if s == "short" then Ok(Short)
    else if s == "near" then Ok(Near)
    else if s == "relaxed" then Ok(Relaxed)
    else if s == "scheduled" then Ok(Scheduled)
    else Err(InvalidTaskType)
  }

  function StatusText(s: Status): string {
    match s
    case Active => "active"
    case Completed => "completed"
    case PendingReminders => "pending_reminders"
    case OtherStatus(name) => name
  }

  function NewStatus(s: string): Result<Status, TaskError> {
    if s == "active" then Ok(Active)
    else if s == "completed" then Ok(Completed)
    else if s == "pending_reminders" then Ok(PendingReminders)
    else Err(InvalidTaskStatus)
  }

  function TaskToRecord(t: Task): TaskRecord {
    TaskRecord(t.id, t.userId, t.title, TypeText(t.taskType), StatusText(t.status), t.description,
               t.scheduledAt, t.createdAt, t.targetAt, t.color.hex)
  }

  function RecordToTask(r: TaskRecord): Result<Task, TaskError> {
    var taskType :- NewType(r.taskType);
    var status :- NewStatus(r.status);
    match Color.NewColor(r.color)
    case Err(e) => Err(BadColor(e))
    case Ok(color) =>
      NewTask(r.id, r.userId, r.title, taskType, status, r.description, r.scheduledAt, r.createdAt, r.targetAt, color)
  }

  /** Exactly which rows convert, with the first fault of the others, and to what. */
  lemma ReadsExactly(r: TaskRecord)
    ensures
      if r.taskType !in {"short", "near", "relaxed", "scheduled"} then RecordToTask(r) == Err(InvalidTaskType)
      else if r.status !in {"active", "completed", "pending_reminders"} then RecordToTask(r) == Err(InvalidTaskStatus)
      else if Color.NewColor(r.color).Err? then RecordToTask(r) == Err(BadColor(Color.NewColor(r.color).error))
      else
        var taskType := if r.taskType == "short" then Short else if r.taskType == "near" then Near
                        else if r.taskType == "relaxed" then Relaxed else Scheduled;
        var fault := TaskFault(r.title, taskType, r.scheduledAt, r.createdAt, r.color);
        if fault.Some? then RecordToTask(r) == Err(fault.value)
        else
          && RecordToTask(r).Ok? && var t := RecordToTask(r).value;
          && t.id == r.id && t.userId == r.userId && t.title == r.title && t.description == r.description
          && t.taskType == taskType && Color.NewColor(r.color) == Ok(t.color)
          && t.status == (if r.status == "active" then Active else if r.status == "completed" then Completed
                          else PendingReminders)
          && t.createdAt == r.createdAt / 1000 * 1000 && t.targetAt == r.targetAt / 1000 * 1000
          && t.scheduledAt == (if r.scheduledAt.Some? then Some(r.scheduledAt.value / 1000 * 1000) else None)
  {
    TextsExactly(r.taskType, r.status);
    hide NewTask, NewType, NewStatus, Color.NewColor, Color.IsNormal, Color.Validate;
    if NewType(r.taskType).Ok? && NewStatus(r.status).Ok? && Color.NewColor(r.color).Ok? {
      var color := Color.NewColor(r.color).value;
      Color.NewColorNormalizes(r.color, color);
      NewTaskExactly(r.id, r.userId, r.title, NewType(r.taskType).value, NewStatus(r.status).value, r.description,
                     r.scheduledAt, r.createdAt, r.targetAt, color);
      SameFault(r.title, NewType(r.taskType).value, r.scheduledAt, r.createdAt, r.color, color.hex);
    }
    hide TaskFault;
  }

  lemma SameFault(title: string, taskType: TaskType, scheduledAt: Option<Instant>, createdAt: Instant,
                  a: string, b: string)
    requires Color.NewColor(a).Ok? && Color.NewColor(b).Ok?
    ensures TaskFault(title, taskType, scheduledAt, createdAt, a) ==
            TaskFault(title, taskType, scheduledAt, createdAt, b)
  {
    hide Color.NewColor;
  }

  lemma TextsExactly(taskType: string, status: string)
    ensures NewType(taskType) ==
      if taskType == "short" then Ok(Short) else if taskType == "near" then Ok(Near)
      else if taskType == "relaxed" then Ok(Relaxed) else if taskType == "scheduled" then Ok(Scheduled)
      else Err(InvalidTaskType)
    ensures NewStatus(status) ==
      if status == "active" then Ok(Active) else if status == "completed" then Ok(Completed)
      else if status == "pending_reminders" then Ok(PendingReminders)
      else Err(InvalidTaskStatus)
  {
  }

  lemma TypeTextInverse(t: TaskType)
    ensures NewType(TypeText(t)) == Ok(t) <==> !t.OtherType?
  {
  }

  lemma StatusTextInverse(s: Status)
    ensures NewStatus(StatusText(s)) == Ok(s) <==> !s.OtherStatus?
  {
  }

  /** Exactly the well-formed tasks come back from the table as they went in. */
  lemma RowRoundTrip(t: Task)
    ensures RecordToTask(TaskToRecord(t)) == Ok(t) <==> WellFormed(t)
  {
    TypeTextInverse(t.taskType);
    StatusTextInverse(t.status);
    Color.NewColorNormalizes(t.color.hex, t.color);
    hide NewType, TypeText, NewStatus, StatusText, Color.NewColor, Color.IsNormal, TruncateMicro, Color.Validate;
  }

  /** Whatever is read from the table is well formed. */
  lemma ReadIsWellFormed(r: TaskRecord)
    ensures RecordToTask(r).Ok? ==> WellFormed(RecordToTask(r).value)
  {
    hide NewType, NewStatus, Color.NewColor, Color.IsNormal, TruncateMicro, Color.Validate, WellFormed;
    KnownTexts(r.taskType, r.status);
    if RecordToTask(r).Ok? {
      var color := Color.NewColor(r.color).value;
      Color.NewColorNormalizes(r.color, color);
      NewTaskWellFormed(r.id, r.userId, r.title, NewType(r.taskType).value, NewStatus(r.status).value, r.description,
                        r.scheduledAt, r.createdAt, r.targetAt, color);
    }
  }

  lemma KnownTexts(taskType: string, status: string)
    ensures NewType(taskType).Ok? ==> !NewType(taskType).value.OtherType?
    ensures NewStatus(status).Ok? ==> !NewStatus(status).value.OtherStatus?
  {
  }
}
