/** What each handler answers, run alone: success, or exactly which error. Each answer is a table of what can be
    wrong with the request and with the calls, the first fault first. */
module TaskAnswers {
  import opened Wrappers
  import opened TaskDomain
  import opened TaskRecords
  import opened TaskTables
  import opened UpdateMask
  import opened Reminders
  import opened TaskHandlers
  import opened TaskOutcomes
  import Color

  function SessionFault(s: Session): Option<HandlerError> {
    match s
    case Valid(_) => None
    case Unauthorized => Some(NotAuthorized)
    case SessionFailure => Some(SessionFailed)
    case MalformedUser => Some(BadUserId)
  }

  predicate IsUsersRow(db: Db, id: TaskId, user: UserId) {
    id in db.tasks && db.tasks[id].userId == user
  }

  // ------------------------------------------------------------ create

  /** Faults found before the first write. */
  function CreateFault(db: Db, req: CreateRequest, env: CreateEnv): Option<HandlerError> {
    if req.taskType !in {TypeShort, TypeNear, TypeRelaxed, TypeScheduled} then Some(ServiceRefused)
    else if !env.session.Valid? then SessionFault(env.session)
    else if req.taskId.BadId? then Some(BadTaskId)
    else if req.taskId.GivenId? && env.existsFails then Some(StoreError(Unavailable))
    else if req.taskId.GivenId? && req.taskId.text.id in db.tasks then Some(TaskIdAlreadyExists)
    else PartsFault(req, env)
  }

  function PartsFault(req: CreateRequest, env: CreateEnv): Option<HandlerError> {
    var taskType := if req.taskType == TypeScheduled then Scheduled else Short;
    if Color.NewColor(req.color).Err? then Some(DomainError(BadColor(Color.NewColor(req.color).error)))
    else if req.taskId.NoId? && env.newId.None? then Some(DomainError(IdGeneration))
    else match TaskFault(req.title, taskType, req.scheduledAt, env.now, req.color)
      case Some(e) => Some(DomainError(e))
      case None =>
        match env.devices
        case DeviceUnauthorized => Some(NotAuthorized)
        case DeviceBadArgument => Some(DeviceInvalidArgument)
        case DeviceUnavailable => Some(DeviceServiceUnavailable)
        case Devices(_) => None
  }

  /** Faults of the writes. */
  function CreateWriteFault(db: Db, req: CreateRequest, env: CreateEnv): Option<HandlerError> {
    if env.saveFails then Some(StoreError(Unavailable))
    else if req.taskId.NoId? && env.newId.Some? && env.newId.value in db.tasks then Some(StoreError(DuplicateKey))
    else if env.registerFails && env.devices.Devices? && RemindedDevices(env.devices.list) != [] then
      Some(RegistrationFailed)
    else if env.activateFails then Some(StoreError(Unavailable))
    else None
  }

  /** A create succeeds if and only if nothing is wrong, and otherwise answers the first fault. */
  lemma CreateAnswers(db: Db, req: CreateRequest, env: CreateEnv)
    ensures var pc := CreateAlone(db, req, env, CBegin).1;
      pc.CDone? &&
      match pc.result
      case Err(e) =>
        if CreateFault(db, req, env).Some? then CreateFault(db, req, env) == Some(e)
        else CreateWriteFault(db, req, env) == Some(e)
      case Ok(_) => CreateFault(db, req, env).None? && CreateWriteFault(db, req, env).None?
  {
    CreateClosedForm(db, req, env);
    ReachesExactly(db, req, env);
    hide CreateAlone, CreateFault;
    if Reaches(db, req, env).Ok? {
      PreparedFacts(db, req, env);
      WritesAnswer(db, req, env, Reaches(db, req, env).value);
    }
  }

  lemma WritesAnswer(db: Db, req: CreateRequest, env: CreateEnv, p: Prepared)
    requires env.devices.Devices?
    ensures
      && Reaches(db, req, env) == Ok(p) && Requested(p.task, req, env)
      && Registration(p.task, env.devices.list) == (if p.remind.Some? then [Register(p.remind.value)] else [])
      ==>
      CreateWriteFault(db, req, env) == match SagaFrom(db, env, p).1.result case Err(e) => Some(e) case Ok(_) => None
  {
    WithTokenMeaning(env.devices.list);
    DevicesAreReminded(env.devices.list);
    hide Prepare, ReminderTimes, TaskToRecord, ChosenMinutes, Color.NewColor, RemindedDevices, WithToken;
  }

  lemma ReachesExactly(db: Db, req: CreateRequest, env: CreateEnv)
    ensures CreateFault(db, req, env) == match Reaches(db, req, env) case Err(e) => Some(e) case Ok(_) => None
  {
    hide Prepare, PartsFault;
    if TypeFromProto(req.taskType).Some? && env.session.Valid? && !req.taskId.BadId? {
      PartsExactly(req, env, TypeFromProto(req.taskType).value, env.session.user);
    }
  }

  lemma PartsExactly(req: CreateRequest, env: CreateEnv, taskType: TaskType, user: UserId)
    requires TypeFromProto(req.taskType) == Some(taskType) && !req.taskId.BadId?
    ensures PartsFault(req, env) ==
      match Prepare(req, env, taskType, user, GivenOnly(req.taskId)) case Err(e) => Some(e) case Ok(_) => None
  {
    hide ReminderTimes, Color.NewColor, CustomPeriod, WithToken, DeviceRequests, ActivePeriodForType;
    if Color.NewColor(req.color).Ok? {
      var color := Color.NewColor(req.color).value;
      Color.NewColorNormalizes(req.color, color);
      CreatedExactly(GivenOnly(req.taskId), env, user, req, taskType, color);
      FaultByKind(req, env, taskType, color);
    }
    hide CreateTask, TaskFault, Color.IsNormal;
  }

  lemma CreatedExactly(id: Option<TaskId>, env: CreateEnv, user: UserId, req: CreateRequest,
                       taskType: TaskType, color: Color.Color)
    ensures CreateTask(id, env.newId, env.now, user, req.title, taskType, req.description, req.scheduledAt, color,
                       CustomPeriod(taskType, env)).Err? ==>
      CreateTask(id, env.newId, env.now, user, req.title, taskType, req.description, req.scheduledAt, color,
                 CustomPeriod(taskType, env)) ==
      if id.None? && env.newId.None? then Err(IdGeneration)
      else Err(Or(TaskFault(req.title, taskType, req.scheduledAt, env.now, color.hex), IdGeneration))
    ensures CreateTask(id, env.newId, env.now, user, req.title, taskType, req.description, req.scheduledAt, color,
                       CustomPeriod(taskType, env)).Ok? <==>
      (id.Some? || env.newId.Some?) && TaskFault(req.title, taskType, req.scheduledAt, env.now, color.hex).None?
  {
    hide CustomPeriod, ActivePeriodForType;
    var target := if taskType == Scheduled then Or(req.scheduledAt, 0)
                  else env.now + Or(CustomPeriod(taskType, env), ActivePeriodForType(taskType));
    NewTaskExactly(Or(id, Or(env.newId, 0)), user, req.title, taskType, PendingReminders, req.description,
                   req.scheduledAt, env.now, target, color);
    hide NewTask, TaskFault;
  }

  lemma FaultByKind(req: CreateRequest, env: CreateEnv, taskType: TaskType, color: Color.Color)
    requires TypeFromProto(req.taskType) == Some(taskType) && Color.NewColor(req.color) == Ok(color)
    ensures TaskFault(req.title, taskType, req.scheduledAt, env.now, color.hex) ==
            TaskFault(req.title, if req.taskType == TypeScheduled then Scheduled else Short,
                      req.scheduledAt, env.now, req.color)
  {
    Color.NewColorNormalizes(req.color, color);
    hide Color.NewColor, Color.IsNormal;
  }

  // ------------------------------------------------------------ update

  /** Faults found before the row is read. */
  predicate UpdateFault(taskId: IdArg, p: ProtoUpdate, env: UpdateEnv, e: HandlerError) {
    if StatusPath in p.mask && p.status !in {ProtoActive, ProtoCompleted} then e == ServiceRefused
    else if !env.session.Valid? then Some(e) == SessionFault(env.session)
    else if taskId.NoId? then e == TaskIdRequired
    else if taskId.BadId? then e == BadTaskId
    else if p.mask == [] then e == DomainError(NoFieldsToUpdate)
    else exists i :: 0 <= i < |p.mask| && FineBefore(p, i) && PathFault(p, p.mask[i]).Some?
                     && e == DomainError(PathFault(p, p.mask[i]).value)
  }

  predicate UpdateFine(taskId: IdArg, p: ProtoUpdate, env: UpdateEnv) {
    && (StatusPath in p.mask ==> p.status in {ProtoActive, ProtoCompleted})
    && env.session.Valid? && taskId.GivenId? && p.mask != [] && FineBefore(p, |p.mask|)
  }

  /** Faults from the read on. */
  function UpdateRowFault(db: Db, id: TaskId, user: UserId, p: ProtoUpdate, env: UpdateEnv): Option<HandlerError> {
    if env.readFails then Some(StoreError(Unavailable))
    else if !IsUsersRow(db, id, user) then Some(TaskNotFound)
    else match RecordToTask(db.tasks[id])
      case Err(e) => Some(StoreError(BadRow(e)))
      case Ok(t) =>
        if ApplyFault(p, t).Some? then Some(DomainError(ApplyFault(p, t).value))
        else if Completes(p, t) then
          if env.cancelFails then Some(CancelFailed)
          else if env.archiveFails then Some(StoreError(Unavailable))
          else if id in db.completed then Some(StoreError(DuplicateKey))
          else None
        else if env.writeFails then Some(StoreError(Unavailable))
        else None
  }

  predicate Completes(p: ProtoUpdate, t: Task) {
    if StatusPath in p.mask then p.status == ProtoCompleted else t.status == Completed
  }

  /** An update succeeds if and only if nothing is wrong, and otherwise answers the first fault. */
  lemma UpdateAnswers(db: Db, taskId: IdArg, p: ProtoUpdate, env: UpdateEnv)
    requires KeyedRows(db)
    ensures var pc := UpdateAlone(db, taskId, p, env, UBegin).1;
      && pc.UDone?
      && (UpdateFine(taskId, p, env) ==>
            UpdateRowFault(db, taskId.text.id, env.session.user, p, env) ==
            match pc.result case Err(e) => Some(e) case Ok(_) => None)
      && (!UpdateFine(taskId, p, env) ==> pc.result.Err? && UpdateFault(taskId, p, env, pc.result.error))
  {
    hide UpdateBegin, UpdateDecide, UpdateAlone, UpdateFault, FineBefore, RecordToTask, Overwrite;
    BeginsExactly(taskId, p, env);
    var m := UpdateUnfold(db, taskId, p, env, UBegin);
    if m.pc.URead? {
      var (id, user, input) := (taskId.text.id, env.session.user, m.pc.input);
      var found := Get(db, id, user, env.readFails);
      if found.Ok? {
        ReadIsWellFormed(db.tasks[id]);
        DecidesExactly(user, taskId.text, p, input, found.value);
        KeyOfApplied(db, id, p);
      } else {
        DecidesOnError(user, taskId.text, input, found);
      }
      hide ApplyFault, Completes, WellFormed, KeyedRows;
      m := UpdateUnfold(m.db, taskId, p, env, m.pc);
      if m.pc.UCancel? {
        m := UpdateUnfold(m.db, taskId, p, env, m.pc);
      }
      if m.pc.UArchive? || m.pc.UWrite? {
        m := UpdateUnfold(m.db, taskId, p, env, m.pc);
      }
    }
  }

  lemma BeginsExactly(taskId: IdArg, p: ProtoUpdate, env: UpdateEnv)
    ensures var pc := UpdateBegin(taskId, p, env);
      if UpdateFine(taskId, p, env) then
        && ServiceRequest(p).Ok? && UpdateInput(ServiceRequest(p).value).Ok?
        && pc == URead(env.session.user, taskId.text, UpdateInput(ServiceRequest(p).value).value)
      else pc.UDone? && pc.result.Err? && UpdateFault(taskId, p, env, pc.result.error)
  {
    ServiceKeepsMask(p);
    assert ServiceRequest(p).Ok? <==> (StatusPath in p.mask ==> p.status in {ProtoActive, ProtoCompleted});
    if ServiceRequest(p).Ok? {
      InputFault(p, ServiceRequest(p).value, |p.mask|);
      NoFaultNoError(p, ServiceRequest(p).value);
    }
    hide ServiceRequest, PathFault;
  }

  lemma NoFaultNoError(p: ProtoUpdate, req: UpdateRequest)
    requires ServiceRequest(p) == Ok(req)
    ensures FineBefore(p, |p.mask|) <==> UpdateInput(req).Ok?
  {
    InputFault(p, req, |p.mask|);
    hide ServiceRequest, UpdateInput, PathFault;
  }

  lemma DecidesOnError(user: UserId, text: IdText, input: TaskUpdate, found: Result<Task, RepoError>)
    requires found.Err?
    ensures UpdateDecide(user, text, input, found) ==
      UDone(Err(if found.error.NotFound? then TaskNotFound else StoreError(found.error)))
  {
  }

  lemma DecidesExactly(user: UserId, text: IdText, p: ProtoUpdate, input: TaskUpdate, t: Task)
    requires p.mask != [] && ServiceRequest(p).Ok? && UpdateInput(ServiceRequest(p).value) == Ok(input) && WellFormed(t)
    ensures var pc := UpdateDecide(user, text, input, Ok(t));
      if ApplyFault(p, t).Some? then pc == UDone(Err(DomainError(ApplyFault(p, t).value)))
      else
        && Updated(p, t).Some? && var u := Updated(p, t).value;
        pc == if Completes(p, t) then UCancel(user, text, u) else UWrite(u)
  {
    ServiceKeepsMask(p);
    AppliesExactly(p, t);
    ServiceSelects(p);
    if ApplyUpdate(t, input).Ok? {
      AppliedStatus(t, input);
    }
    hide ServiceRequest, UpdateInput, ScheduledAtConstraint, ApplyUpdate, WellFormed, ApplyFault;
  }

  // ------------------------------------------------------------ delete

  function DeleteFault(db: Db, taskId: IdArg, env: DeleteEnv): Option<HandlerError> {
    if !env.session.Valid? then SessionFault(env.session)
    else if taskId.NoId? then Some(TaskIdRequired)
    else if taskId.BadId? then Some(BadTaskId)
    else if env.cancelFails then Some(CancelFailed)
    else if env.deleteFails then Some(StoreError(Unavailable))
    else if !IsUsersRow(db, taskId.text.id, env.session.user) then Some(TaskNotFound)
    else None
  }

  /** A delete succeeds if and only if nothing is wrong, and otherwise answers the first fault. */
  lemma DeleteAnswers(db: Db, taskId: IdArg, env: DeleteEnv)
    ensures DeleteAlone(db, taskId, env, DBegin).1 == DDone(DeleteFault(db, taskId, env))
  {
    hide DeleteAlone;
    var m := DeleteUnfold(db, taskId, env, DBegin);
    if m.pc.DCancel? {
      m := DeleteUnfold(m.db, taskId, env, m.pc);
      if m.pc.DDelete? {
        m := DeleteUnfold(m.db, taskId, env, m.pc);
      }
    }
  }
}
