/** The task handlers: create, update (and complete), delete.

    Each handler is given twice. As a program counter and a step function, one step per database or
    queue call, so that handlers can be interleaved and stopped anywhere; and as a method that runs to
    completion on the store and is proved to do what its steps do. Everything a handler learns from
    outside (the session, the clock, a fresh id, the devices, which calls fail) is in its environment. */
module TaskHandlers {
  import opened Wrappers
  import opened GoTime
  import opened TaskDomain
  import opened TaskTables
  import opened UpdateMask
  import opened Reminders
  import Color
  import PeriodSettings

  datatype Session = Valid(user: UserId) | Unauthorized | SessionFailure | MalformedUser

  /** The task id of a request: absent, not a version 7 UUID, or the text of one. */
  datatype IdArg = NoId | BadId | GivenId(text: IdText)

  datatype HandlerError =
    | NotAuthorized
    | SessionFailed
    | BadUserId
    | BadTaskId
    | TaskIdRequired
    | TaskIdAlreadyExists
    | ServiceRefused
    | DomainError(domainError: TaskError)
    | DeviceInvalidArgument
    | DeviceServiceUnavailable
    | RegistrationFailed
    | CancelFailed
    | TaskNotFound
    | StoreError(storeError: RepoError)

  /** A row appears in or leaves the `tasks` table. */
  datatype Event = Saved(id: TaskId) | Deleted(id: TaskId) | Archived(id: TaskId)

  /** The outcome of one step. */
  datatype Move<Pc> = Move(db: Db, pc: Pc, event: Option<Event>)

  function SessionError(s: Session): HandlerError {
    match s
    case Unauthorized => NotAuthorized
    case MalformedUser => BadUserId
    case _ => SessionFailed
  }

  // ---------------------------------------------------------------- CreateTask

  datatype ProtoType =
    | TypeUnspecified
    | TypeShort
    | TypeNear
    | TypeRelaxed
    | TypeScheduled
    | TypeUnrecognized(number: int)

  /** `protoTaskTypeToString`: the service lets only the four known types through. */
  function TypeFromProto(t: ProtoType): Option<TaskType> {
    match t
    case TypeShort => Some(Short)
    case TypeNear => Some(Near)
    case TypeRelaxed => Some(Relaxed)
    case TypeScheduled => Some(Scheduled)
    case _ => None
  }

  datatype CreateRequest = CreateRequest(
    taskId: IdArg,
    title: string,
    taskType: ProtoType,
    description: string,
    scheduledAt: Option<Instant>,
    color: string)

  datatype DeviceOutcome = Devices(list: seq<DeviceInfo>) | DeviceUnauthorized | DeviceBadArgument | DeviceUnavailable

  /** Settings as the repository returns them: already validated. */
  type ValidSettings = p: PeriodSettings.Periods | PeriodSettings.ValidPeriods(p) witness map[]

  datatype CreateEnv = CreateEnv(
    session: Session,
    existsFails: bool,
    newId: Option<TaskId>,
    now: Instant,
    settings: Option<ValidSettings>,  // None if the lookup failed
    devices: DeviceOutcome,
    saveFails: bool,
    registerFails: bool,
    rollbackFails: bool,
    activateFails: bool)

  /** The id that a request to create gives, or is given. */
  function AskedId(req: CreateRequest, env: CreateEnv): Option<TaskId> {
    match req.taskId
    case BadId => None
    case GivenId(text) => Some(text.id)
    case NoId => env.newId
  }

  /** `filterDevicesWithFCMToken`, as a function. */
  function WithToken(devices: seq<DeviceInfo>): seq<DeviceInfo> {
    if devices == [] then []
    else
      var d := devices[|devices| - 1];
      WithToken(devices[..|devices| - 1]) + if d.fcmToken.Some? && d.fcmToken.value != "" then [d] else []
  }

  method FilterDevicesWithFCMToken(devices: seq<DeviceInfo>) returns (valid: seq<DeviceInfo>, filtered: nat)
    ensures valid == WithToken(devices)
    ensures |valid| + filtered == |devices|
  {
    valid := [];
    for i := 0 to |devices|
      invariant valid == WithToken(devices[..i]) && |valid| <= i
    {
      assert devices[..i + 1][..i] == devices[..i];
      if devices[i].fcmToken.Some? && devices[i].fcmToken.value != "" {
        valid := valid + [devices[i]];
      }
    }
    assert devices[..|devices|] == devices;
    filtered := |devices| - |valid|;
  }

  function DeviceRequests(devices: seq<DeviceInfo>): (r: seq<DeviceRequest>)
    ensures |r| == |devices|
  {
    seq(|devices|, i requires 0 <= i < |devices| => DeviceRequest(devices[i].deviceId, Or(devices[i].fcmToken, "")))
  }

  function ToRemindRequest(info: ReminderInfo): RemindRequest {
    RemindRequest(info.times, info.userId, DeviceRequests(info.devices), IdText(info.taskId, true), info.taskType,
        info.color)
  }

  /** `convertToRemindRequest`. */
  method ConvertToRemindRequest(info: ReminderInfo) returns (r: RemindRequest)
    ensures r == ToRemindRequest(info)
    ensures r.times == info.times && r.user == info.userId && r.task == IdText(info.taskId, true)
    ensures r.taskType == info.taskType && r.color == info.color && |r.devices| == |info.devices|
    ensures forall i :: 0 <= i < |info.devices| ==>
      && r.devices[i].deviceId == info.devices[i].deviceId
      && r.devices[i].fcmToken == match info.devices[i].fcmToken case Some(token) => token case None => ""
  {
    var devices: seq<DeviceRequest> := [];
    for i := 0 to |info.devices|
      invariant |devices| == i
      invariant forall j :: 0 <= j < i ==>
          devices[j] == DeviceRequest(info.devices[j].deviceId, Or(info.devices[j].fcmToken, ""))
    {
      var token := "";
      if info.devices[i].fcmToken.Some? {
        token := info.devices[i].fcmToken.value;
      }
      devices := devices + [DeviceRequest(info.devices[i].deviceId, token)];
    }
    return RemindRequest(info.times, info.userId, devices, IdText(info.taskId, true), info.taskType, info.color);
  }

  /** A task ready to be saved, and the reminder to register, if any device can receive one. */
  datatype Prepared = Prepared(task: Task, remind: Option<RemindRequest>)

  /** The custom period: looked up for unscheduled tasks only; a failed lookup means the default. */
  function CustomPeriod(taskType: TaskType, env: CreateEnv): Option<Duration> {
    if taskType == Scheduled || env.settings.None? then None else PeriodSettings.GetPeriod(env.settings.value, taskType)
  }

  /** Everything between the existence check and the first write, in the program's order. */
  function Prepare(req: CreateRequest, env: CreateEnv, taskType: TaskType, user: UserId, id: Option<TaskId>)
    : Result<Prepared, HandlerError>
  {
    match Color.NewColor(req.color)
    case Err(e) => Err(DomainError(BadColor(e)))
    case Ok(color) =>
      match CreateTask(id, env.newId, env.now, user, req.title, taskType, req.description, req.scheduledAt, color,
          CustomPeriod(taskType, env))
      case Err(e) => Err(DomainError(e))
      case Ok(task) =>
        match env.devices
        case DeviceUnauthorized => Err(NotAuthorized)
        case DeviceBadArgument => Err(DeviceInvalidArgument)
        case DeviceUnavailable => Err(DeviceServiceUnavailable)
        case Devices(list) =>
          var valid := WithToken(list);
          Ok(Prepared(task,
            if valid == [] then None
            else Some(ToRemindRequest(ReminderInfo(task.id, task.taskType, user, ReminderTimes(task), valid,
                task.color.hex)))))
  }

  datatype CreatePc =
    | CBegin
    | CExists(user: UserId, text: IdText)
    | CSave(prepared: Prepared)
    | CRegister(prepared: Prepared)
    | CRollback(prepared: Prepared)
    | CActivate(prepared: Prepared)
    | CDone(result: Result<Task, HandlerError>)

  function PreparePc(req: CreateRequest, env: CreateEnv, user: UserId, id: Option<TaskId>): CreatePc
    requires TypeFromProto(req.taskType).Some?
  {
    match Prepare(req, env, TypeFromProto(req.taskType).value, user, id)
    case Ok(p) => CSave(p)
    case Err(e) => CDone(Err(e))
  }

  function CreateStep(db: Db, req: CreateRequest, env: CreateEnv, pc: CreatePc): Move<CreatePc> {
    match pc
    case CBegin =>
      Move(db,
           if TypeFromProto(req.taskType).None? then CDone(Err(ServiceRefused))
           else if !env.session.Valid? then CDone(Err(SessionError(env.session)))
           else match req.taskId
             case BadId => CDone(Err(BadTaskId))
             case NoId => PreparePc(req, env, env.session.user, None)
             case GivenId(text) => CExists(env.session.user, text),
           None)
    case CExists(user, text) =>
      Move(db,
           if TypeFromProto(req.taskType).None? then CDone(Err(ServiceRefused))
           else if env.existsFails then CDone(Err(StoreError(Unavailable)))
           else if text.id in db.tasks then CDone(Err(TaskIdAlreadyExists))
           else PreparePc(req, env, user, Some(text.id)),
           None)
    case CSave(p) =>
      (match Save(db, p.task, env.saveFails)
       case Ok(db') => Move(db', if p.remind.Some? then CRegister(p) else CActivate(p), Some(Saved(p.task.id)))
       case Err(e) => Move(db, CDone(Err(StoreError(e))), None))
    case CRegister(p) =>
      if p.remind.None? then Move(db, CActivate(p), None)
      else
        (match Enqueue(db, Register(p.remind.value), env.registerFails)
         case Ok(db') => Move(db', CActivate(p), None)
         case Err(_) => Move(db, CRollback(p), None))
    case CRollback(p) =>
      (match Delete(db, p.task.id, p.task.userId, env.rollbackFails)
       case Ok(db') => Move(db', CDone(Err(RegistrationFailed)), Some(Deleted(p.task.id)))
       case Err(_) => Move(db, CDone(Err(RegistrationFailed)), None))
    case CActivate(p) =>
      (match UpdateStatus(db, p.task.id, p.task.userId, Active, env.activateFails)
       case Ok(db') => Move(db', CDone(Ok(p.task.(status := Active))), None)
       case Err(e) => Move(db, CDone(Err(StoreError(e))), None))
    case CDone(_) => Move(db, pc, None)
  }

  /** An upper bound on the steps left. */
  function CreateRank(pc: CreatePc): nat {
    match pc
    case CBegin => 5 case CExists(_, _) => 4 case CSave(_) => 3 case CRegister(_) => 2
    case CRollback(_) => 1 case CActivate(_) => 1 case CDone(_) => 0
  }

  /** The handler's steps with nothing else running. */
  function CreateAlone(db: Db, req: CreateRequest, env: CreateEnv, pc: CreatePc): (Db, CreatePc)
    decreases CreateRank(pc)
  {
    if pc.CDone? then (db, pc)
    else
      var m := CreateStep(db, req, env, pc);
      CreateAlone(m.db, req, env, m.pc)
  }

  lemma CreateUnfold(db: Db, req: CreateRequest, env: CreateEnv, pc: CreatePc) returns (m: Move<CreatePc>)
    requires !pc.CDone?
    ensures m == CreateStep(db, req, env, pc)
    ensures CreateAlone(db, req, env, pc) == CreateAlone(m.db, req, env, m.pc)
    ensures m.pc.CDone? ==> CreateAlone(m.db, req, env, m.pc) == (m.db, m.pc)
  {
    m := CreateStep(db, req, env, pc);
  }

  lemma CreateOver(db: Db, req: CreateRequest, env: CreateEnv, result: Result<Task, HandlerError>)
    ensures CreateAlone(db, req, env, CDone(result)) == (db, CDone(result))
  {
  }

  /** The middle of the handler: no call in it touches the store. */
  method PrepareTask(req: CreateRequest, env: CreateEnv, taskType: TaskType, user: UserId, id: Option<TaskId>)
    returns (r: Result<Prepared, HandlerError>)
    ensures r == Prepare(req, env, taskType, user, id)
  {
    hide CreateTask, ReminderTimes, CustomPeriod, Color.NewColor, WithToken, ToRemindRequest;
    var color := Color.NewColor(req.color);
    if color.Err? {
      return Err(DomainError(BadColor(color.error)));
    }
    var task := CreateTask(id, env.newId, env.now, user, req.title, taskType, req.description, req.scheduledAt,
                           color.value, CustomPeriod(taskType, env));
    if task.Err? {
      return Err(DomainError(task.error));
    }
    match env.devices {
      case DeviceUnauthorized => return Err(NotAuthorized);
      case DeviceBadArgument => return Err(DeviceInvalidArgument);
      case DeviceUnavailable => return Err(DeviceServiceUnavailable);
      case Devices(list) =>
        var valid, filtered := FilterDevicesWithFCMToken(list);
        var remind := None;
        if |valid| > 0 {
          var info := CalculateReminderTimes(Some(task.value), user, valid);
          var request := ConvertToRemindRequest(info.value);
          remind := Some(request);
        }
        return Ok(Prepared(task.value, remind));
    }
  }

  /** The registration, with the rollback when it fails. */
  method RegisterOrRollBack(store: TaskStore, req: CreateRequest, env: CreateEnv, prepared: Prepared)
    returns (registered: bool)
    requires prepared.remind.Some?
    modifies store
    ensures CreateAlone(old(store.View()), req, env, CRegister(prepared)) ==
      CreateAlone(store.View(), req, env, if registered then CActivate(prepared) else CDone(Err(RegistrationFailed)))
  {
    hide Prepare, PreparePc, Save, Delete, UpdateStatus, Enqueue, CreateAlone, Others, RowError;
    ghost var m := CreateUnfold(store.View(), req, env, CRegister(prepared));
    var err := store.Send(Register(prepared.remind.value), env.registerFails);
    if err.Some? {
      m := CreateUnfold(m.db, req, env, m.pc);
      err := store.DeleteTask(prepared.task.id, prepared.task.userId, env.rollbackFails);
      return false;
    }
    return true;
  }

  /** The writes: save, register, then activate. */
  method SaveAndRegister(store: TaskStore, req: CreateRequest, env: CreateEnv, prepared: Prepared)
    returns (result: Result<Task, HandlerError>)
    modifies store
    ensures (store.View(), CDone(result)) == CreateAlone(old(store.View()), req, env, CSave(prepared))
  {
    hide Prepare, PreparePc, Save, Delete, UpdateStatus, Enqueue, CreateAlone, Others, RowError;
    var task := prepared.task;
    ghost var m := CreateUnfold(store.View(), req, env, CSave(prepared));
    var err := store.SaveTask(task, env.saveFails);
    if err.Some? {
      return Err(StoreError(err.value));
    }
    if prepared.remind.Some? {
      var registered := RegisterOrRollBack(store, req, env, prepared);
      if !registered {
        CreateOver(store.View(), req, env, Err(RegistrationFailed));
        return Err(RegistrationFailed);
      }
    }
    m := CreateUnfold(store.View(), req, env, CActivate(prepared));
    err := store.UpdateTaskStatus(task.id, task.userId, Active, env.activateFails);
    if err.Some? {
      return Err(StoreError(err.value));
    }
    return Ok(task.(status := Active));
  }

  /** The handler run to completion on the store. */
  method CreateTaskHandler(store: TaskStore, req: CreateRequest, env: CreateEnv)
      returns (result: Result<Task, HandlerError>)
    modifies store
    ensures (store.View(), CDone(result)) == CreateAlone(old(store.View()), req, env, CBegin)
  {
    hide Prepare, Save, Delete, UpdateStatus, CreateAlone;
    ghost var m := CreateUnfold(store.View(), req, env, CBegin);
    var taskType := TypeFromProto(req.taskType);
    if taskType.None? {
      return Err(ServiceRefused);
    }
    if !env.session.Valid? {
      return Err(SessionError(env.session));
    }
    var id := None;
    match req.taskId {
      case BadId =>
        return Err(BadTaskId);
      case NoId =>
      case GivenId(text) =>
        id := Some(text.id);
        var found := store.ExistsTaskByID(text.id, env.existsFails);
        m := CreateUnfold(m.db, req, env, m.pc);
        if found.Err? {
          return Err(StoreError(found.error));
        }
        if found.value {
          return Err(TaskIdAlreadyExists);
        }
    }
    var prepared := PrepareTask(req, env, taskType.value, env.session.user, id);
    if prepared.Err? {
      return Err(prepared.error);
    }
    result := SaveAndRegister(store, req, env, prepared.value);
  }

  // ---------------------------------------------------------------- UpdateTask

  datatype UpdateEnv = UpdateEnv(
    session: Session,
    readFails: bool,
    cancelFails: bool,
    now: Instant,
    archiveFails: bool,
    writeFails: bool)

  datatype UpdatePc =
    | UBegin
    | URead(user: UserId, text: IdText, input: TaskUpdate)
    | UCancel(user: UserId, text: IdText, updated: Task)
    | UArchive(user: UserId, text: IdText, updated: Task)
    | UWrite(updated: Task)
    | UDone(result: Result<Task, HandlerError>)

  /** The checks before the row is read: the service's mask loop, the session, the id, the mask. */
  function UpdateBegin(taskId: IdArg, p: ProtoUpdate, env: UpdateEnv): UpdatePc {
    match ServiceRequest(p)
    case Err(_) => UDone(Err(ServiceRefused))
    case Ok(req) =>
      if !env.session.Valid? then UDone(Err(SessionError(env.session)))
      else match taskId
        case NoId => UDone(Err(TaskIdRequired))
        case BadId => UDone(Err(BadTaskId))
        case GivenId(text) =>
          if req.mask == [] then UDone(Err(DomainError(NoFieldsToUpdate)))
          else match UpdateInput(req)
            case Err(e) => UDone(Err(DomainError(e)))
            case Ok(input) => URead(env.session.user, text, input)
  }

  /** What follows the read: the constraint on scheduled times, then the new task. */
  function UpdateDecide(user: UserId, text: IdText, input: TaskUpdate, found: Result<Task, RepoError>): UpdatePc {
    match found
    case Err(NotFound) => UDone(Err(TaskNotFound))
    case Err(e) => UDone(Err(StoreError(e)))
    case Ok(t) =>
      if ScheduledAtConstraint(t, input).Some? then UDone(Err(DomainError(ScheduledAtConstraint(t, input).value)))
      else match ApplyUpdate(t, input)
        case Err(e) => UDone(Err(DomainError(e)))
        case Ok(updated) => if updated.status == Completed then UCancel(user, text, updated) else UWrite(updated)
  }

  function UpdateStep(db: Db, taskId: IdArg, p: ProtoUpdate, env: UpdateEnv, pc: UpdatePc): Move<UpdatePc> {
    match pc
    case UBegin => Move(db, UpdateBegin(taskId, p, env), None)
    case URead(user, text, input) =>
      Move(db, UpdateDecide(user, text, input, Get(db, text.id, user, env.readFails)), None)
    case UCancel(user, text, updated) =>
      (match Enqueue(db, Cancel(text, user), env.cancelFails)
       case Ok(db') => Move(db', UArchive(user, text, updated), None)
       case Err(_) => Move(db, UDone(Err(CancelFailed)), None))
    case UArchive(user, text, updated) =>
      (match Archive(db, NewCompletedTask(updated, env.now), text.id, user, env.archiveFails)
       case Ok(db') => Move(db', UDone(Ok(updated)), Some(Archived(text.id)))
       case Err(e) => Move(db, UDone(Err(StoreError(e))), None))
    case UWrite(updated) =>
      (match Update(db, updated, env.writeFails)
       case Ok(db') => Move(db', UDone(Ok(updated)), None)
       case Err(e) => Move(db, UDone(Err(StoreError(e))), None))
    case UDone(_) => Move(db, pc, None)
  }

  function UpdateRank(pc: UpdatePc): nat {
    match pc
    case UBegin => 4 case URead(_, _, _) => 3 case UCancel(_, _, _) => 2 case UArchive(_, _, _) => 1
    case UWrite(_) => 1 case UDone(_) => 0
  }

  function UpdateAlone(db: Db, taskId: IdArg, p: ProtoUpdate, env: UpdateEnv, pc: UpdatePc): (Db, UpdatePc)
    decreases UpdateRank(pc)
  {
    if pc.UDone? then (db, pc)
    else
      var m := UpdateStep(db, taskId, p, env, pc);
      UpdateAlone(m.db, taskId, p, env, m.pc)
  }

  lemma UpdateUnfold(db: Db, taskId: IdArg, p: ProtoUpdate, env: UpdateEnv, pc: UpdatePc) returns (m: Move<UpdatePc>)
    requires !pc.UDone?
    ensures m == UpdateStep(db, taskId, p, env, pc)
    ensures UpdateAlone(db, taskId, p, env, pc) == UpdateAlone(m.db, taskId, p, env, m.pc)
    ensures m.pc.UDone? ==> UpdateAlone(m.db, taskId, p, env, m.pc) == (m.db, m.pc)
  {
    m := UpdateStep(db, taskId, p, env, pc);
  }

  /** The last calls: a completed task is cancelled and archived, any other is written. */
  method ArchiveOrWrite(store: TaskStore, taskId: IdArg, p: ProtoUpdate, env: UpdateEnv,
                        user: UserId, text: IdText, updated: Task)
    returns (result: Result<Task, HandlerError>)
    modifies store
    ensures (store.View(), UDone(result)) ==
      UpdateAlone(old(store.View()), taskId, p, env,
                  if updated.status == Completed then UCancel(user, text, updated) else UWrite(updated))
  {
    hide ServiceRequest, UpdateInput, UpdateBegin, UpdateDecide, UpdateAlone, Update, Archive, Others, RowError;
    if updated.status == Completed {
      ghost var m := UpdateUnfold(store.View(), taskId, p, env, UCancel(user, text, updated));
      var err := store.Send(Cancel(text, user), env.cancelFails);
      if err.Some? {
        return Err(CancelFailed);
      }
      m := UpdateUnfold(m.db, taskId, p, env, m.pc);
      err := store.ArchiveTask(NewCompletedTask(updated, env.now), text.id, user, env.archiveFails);
      if err.Some? {
        return Err(StoreError(err.value));
      }
    } else {
      ghost var m := UpdateUnfold(store.View(), taskId, p, env, UWrite(updated));
      var err := store.UpdateTask(updated, env.writeFails);
      if err.Some? {
        return Err(StoreError(err.value));
      }
    }
    return Ok(updated);
  }

  /** The handler run to completion on the store, the service's mask loop included. */
  method UpdateTaskHandler(store: TaskStore, taskId: IdArg, p: ProtoUpdate, env: UpdateEnv)
    returns (result: Result<Task, HandlerError>)
    modifies store
    ensures (store.View(), UDone(result)) == UpdateAlone(old(store.View()), taskId, p, env, UBegin)
  {
    hide ServiceRequest, UpdateInput, ScheduledAtConstraint, ApplyUpdate, UpdateAlone, Get, Update, Archive, Others,
      RowError;
    ghost var m := UpdateUnfold(store.View(), taskId, p, env, UBegin);
    var req := BuildServiceRequest(p);
    if req.Err? {
      return Err(ServiceRefused);
    }
    if !env.session.Valid? {
      return Err(SessionError(env.session));
    }
    var user := env.session.user;
    if taskId.NoId? {
      return Err(TaskIdRequired);
    }
    if taskId.BadId? {
      return Err(BadTaskId);
    }
    var text := taskId.text;
    if |req.value.mask| == 0 {
      return Err(DomainError(NoFieldsToUpdate));
    }
    var input := BuildUpdateInput(req.value);
    if input.Err? {
      return Err(DomainError(input.error));
    }
    var existing := store.GetTaskByID(text.id, user, env.readFails);
    m := UpdateUnfold(m.db, taskId, p, env, m.pc);
    if existing.Err? {
      return Err(if existing.error.NotFound? then TaskNotFound else StoreError(existing.error));
    }
    var violated := ScheduledAtConstraint(existing.value, input.value);
    if violated.Some? {
      return Err(DomainError(violated.value));
    }
    var updated := ApplyUpdate(existing.value, input.value);
    if updated.Err? {
      return Err(DomainError(updated.error));
    }
    result := ArchiveOrWrite(store, taskId, p, env, user, text, updated.value);
  }

  // ---------------------------------------------------------------- DeleteTask

  datatype DeleteEnv = DeleteEnv(session: Session, cancelFails: bool, deleteFails: bool)

  datatype DeletePc =
    | DBegin
    | DCancel(user: UserId, text: IdText)
    | DDelete(user: UserId, text: IdText)
    | DDone(error: Option<HandlerError>)

  function DeleteStep(db: Db, taskId: IdArg, env: DeleteEnv, pc: DeletePc): Move<DeletePc> {
    match pc
    case DBegin =>
      Move(db,
           if !env.session.Valid? then DDone(Some(SessionError(env.session)))
           else match taskId
             case NoId => DDone(Some(TaskIdRequired))
             case BadId => DDone(Some(BadTaskId))
             case GivenId(text) => DCancel(env.session.user, text),
           None)
    case DCancel(user, text) =>
      (match Enqueue(db, Cancel(text, user), env.cancelFails)
       case Ok(db') => Move(db', DDelete(user, text), None)
       case Err(_) => Move(db, DDone(Some(CancelFailed)), None))
    case DDelete(user, text) =>
      (match Delete(db, text.id, user, env.deleteFails)
       case Ok(db') => Move(db', DDone(None), Some(Deleted(text.id)))
       case Err(e) => Move(db, DDone(Some(if e.NotFound? then TaskNotFound else StoreError(e))), None))
    case DDone(_) => Move(db, pc, None)
  }

  function DeleteRank(pc: DeletePc): nat {
    match pc
    case DBegin => 3 case DCancel(_, _) => 2 case DDelete(_, _) => 1 case DDone(_) => 0
  }

  function DeleteAlone(db: Db, taskId: IdArg, env: DeleteEnv, pc: DeletePc): (Db, DeletePc)
    decreases DeleteRank(pc)
  {
    if pc.DDone? then (db, pc)
    else
      var m := DeleteStep(db, taskId, env, pc);
      DeleteAlone(m.db, taskId, env, m.pc)
  }

  lemma DeleteUnfold(db: Db, taskId: IdArg, env: DeleteEnv, pc: DeletePc) returns (m: Move<DeletePc>)
    requires !pc.DDone?
    ensures m == DeleteStep(db, taskId, env, pc)
    ensures DeleteAlone(db, taskId, env, pc) == DeleteAlone(m.db, taskId, env, m.pc)
    ensures m.pc.DDone? ==> DeleteAlone(m.db, taskId, env, m.pc) == (m.db, m.pc)
  {
    m := DeleteStep(db, taskId, env, pc);
  }

  /** The handler run to completion on the store. */
  method DeleteTaskHandler(store: TaskStore, taskId: IdArg, env: DeleteEnv) returns (error: Option<HandlerError>)
    modifies store
    ensures (store.View(), DDone(error)) == DeleteAlone(old(store.View()), taskId, env, DBegin)
  {
    hide Delete, DeleteAlone, Others, RowError;
    ghost var m := DeleteUnfold(store.View(), taskId, env, DBegin);
    if !env.session.Valid? {
      return Some(SessionError(env.session));
    }
    if taskId.NoId? {
      return Some(TaskIdRequired);
    }
    if taskId.BadId? {
      return Some(BadTaskId);
    }
    var user, text := env.session.user, taskId.text;
    var err := store.Send(Cancel(text, user), env.cancelFails);
    m := DeleteUnfold(m.db, taskId, env, m.pc);
    if err.Some? {
      return Some(CancelFailed);
    }
    err := store.DeleteTask(text.id, user, env.deleteFails);
    m := DeleteUnfold(m.db, taskId, env, m.pc);
    if err.Some? {
      return Some(if err.value.NotFound? then TaskNotFound else StoreError(err.value));
    }
    return None;
  }
}
