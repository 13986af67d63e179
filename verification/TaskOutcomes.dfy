/** What one handler call does when it runs alone, from request to final state. */
module TaskOutcomes {
  import opened Wrappers
  import opened GoTime
  import opened TaskDomain
  import opened TaskRecords
  import opened TaskTables
  import opened UpdateMask
  import opened Reminders
  import TimeLists
  import opened TaskHandlers
  import Color
  import PeriodSettings

  predicate HasToken(d: DeviceInfo) {
    d.fcmToken.Some? && d.fcmToken.value != ""
  }

  /** Filtering keeps exactly the devices with a token, each as often as it occurs. */
  lemma {:induction false} WithTokenMeaning(devices: seq<DeviceInfo>)
    ensures forall d :: multiset(WithToken(devices))[d] == if HasToken(d) then multiset(devices)[d] else 0
    ensures WithToken(devices) == [] <==> forall d | d in devices :: !HasToken(d)
  {
    if devices != [] {
      var n := |devices| - 1;
      var d := devices[n];
      WithTokenMeaning(devices[..n]);
      assert devices == devices[..n] + [d];
      assert WithToken(devices) == WithToken(devices[..n]) + if HasToken(d) then [d] else [];
    }
  }

  /** Filtering keeps the order: it can be done piece by piece. */
  lemma {:induction false} WithTokenInOrder(front: seq<DeviceInfo>, rest: seq<DeviceInfo>)
    ensures WithToken(front + rest) == WithToken(front) + WithToken(rest)
  {
    if rest == [] {
      assert front + rest == front;
    } else {
      var n := |rest| - 1;
      WithTokenInOrder(front, rest[..n]);
      assert (front + rest)[..|front + rest| - 1] == front + rest[..n];
    }
  }

  /** How many minutes a task of this type lasts: what the user chose, if anything, else the default. */
  function ChosenMinutes(taskType: TaskType, settings: Option<ValidSettings>): int {
    if settings.Some? && taskType in settings.value then settings.value[taskType]
    else match taskType
      case Short => 30
      case Near => 180
      case Relaxed => 1440
      case _ => 0
  }

  /** The task is what the request asks for: the given or fresh id, the asked type, its fields, the clock reading as
      creation time, and as target the scheduled time or the end of the chosen minutes. */
  predicate Requested(t: Task, req: CreateRequest, env: CreateEnv) {
    && (match req.taskId
        case GivenId(text) => t.id == text.id
        case NoId => env.newId == Some(t.id)
        case BadId => false)
    && (match req.taskType
        case TypeShort => t.taskType == Short
        case TypeNear => t.taskType == Near
        case TypeRelaxed => t.taskType == Relaxed
        case TypeScheduled => t.taskType == Scheduled
        case _ => false)
    && t.title == req.title && t.description == req.description && Color.NewColor(req.color) == Ok(t.color)
    && t.createdAt == env.now / 1000 * 1000
    && t.scheduledAt == (if req.scheduledAt.Some? then Some(req.scheduledAt.value / 1000 * 1000) else None)
    && (if t.taskType == Scheduled then t.scheduledAt == Some(t.targetAt)
        else t.targetAt == t.createdAt + ChosenMinutes(t.taskType, env.settings) * 60_000_000_000)
  }

  /** The devices to remind: those with a token, in order. */
  function RemindedDevices(devices: seq<DeviceInfo>): seq<DeviceRequest> {
    if devices == [] then []
    else
      var d := devices[|devices| - 1];
      RemindedDevices(devices[..|devices| - 1]) +
      (match d.fcmToken
       case Some(token) => if token == "" then [] else [DeviceRequest(d.deviceId, token)]
       case None => [])
  }

  /** The messages a create adds for its task: one registration if any device has a token, else none. */
  function Registration(t: Task, devices: seq<DeviceInfo>): seq<Message> {
    if forall d | d in devices :: !HasToken(d) then []
    else [Register(RemindRequest(ReminderTimes(t), t.userId, RemindedDevices(devices), IdText(t.id, true),
                                 t.taskType, t.color.hex))]
  }

  lemma {:induction false} DevicesAreReminded(devices: seq<DeviceInfo>)
    ensures DeviceRequests(WithToken(devices)) == RemindedDevices(devices)
  {
    if devices != [] {
      var n := |devices| - 1;
      DevicesAreReminded(devices[..n]);
      var (front, d) := (WithToken(devices[..n]), devices[n]);
      assert WithToken(devices) == front + if HasToken(d) then [d] else [];
      if HasToken(d) {
        assert DeviceRequests(front + [d]) == DeviceRequests(front) + [DeviceRequest(d.deviceId, d.fcmToken.value)];
      } else {
        assert WithToken(devices) == front;
      }
    }
  }

  /** The task and the registration that the checks before the first write lead to, or the first check that fails. */
  function Reaches(db: Db, req: CreateRequest, env: CreateEnv): Result<Prepared, HandlerError> {
    if TypeFromProto(req.taskType).None? then Err(ServiceRefused)
    else if !env.session.Valid? then Err(SessionError(env.session))
    else if req.taskId.BadId? then Err(BadTaskId)
    else if req.taskId.GivenId? && env.existsFails then Err(StoreError(Unavailable))
    else if req.taskId.GivenId? && req.taskId.text.id in db.tasks then Err(TaskIdAlreadyExists)
    else Prepare(req, env, TypeFromProto(req.taskType).value, env.session.user, GivenOnly(req.taskId))
  }

  function GivenOnly(arg: IdArg): Option<TaskId> {
    if arg.GivenId? then Some(arg.text.id) else None
  }

  /** Everything a prepared create carries fits together. */
  lemma PreparedFacts(db: Db, req: CreateRequest, env: CreateEnv)
    ensures Reaches(db, req, env).Ok? ==>
      var p := Reaches(db, req, env).value;
      && Good(p.task) && p.task.status == PendingReminders
      && env.session == Valid(p.task.userId) && Requested(p.task, req, env)
      && env.devices.Devices?
      && Registration(p.task, env.devices.list) == (if p.remind.Some? then [Register(p.remind.value)] else [])
  {
    hide Prepare, Registration, CustomPeriod, TruncateMicro, ActivePeriodForType, ChosenMinutes, WellFormed,
      Color.NewColor;
    if Reaches(db, req, env).Ok? {
      var taskType := TypeFromProto(req.taskType).value;
      PrepareFacts(req, env, taskType, env.session.user, GivenOnly(req.taskId));
      PeriodIsChosen(taskType, env);
      TruncateIsFloor(env.now);
      TruncateIsFloor(Or(req.scheduledAt, 0));
    }
  }

  lemma PrepareFacts(req: CreateRequest, env: CreateEnv, taskType: TaskType, user: UserId, id: Option<TaskId>)
    requires !taskType.OtherType?
    ensures Prepare(req, env, taskType, user, id).Ok? ==>
      var p := Prepare(req, env, taskType, user, id).value;
      && Good(p.task) && p.task.status == PendingReminders && p.task.userId == user
      && Some(p.task.id) == (if id.Some? then id else env.newId)
      && p.task.taskType == taskType && p.task.title == req.title && p.task.description == req.description
      && Color.NewColor(req.color) == Ok(p.task.color)
      && p.task.createdAt == TruncateMicro(env.now) && p.task.scheduledAt == Truncated(req.scheduledAt)
      && (taskType != Scheduled ==>
            p.task.targetAt - p.task.createdAt == Or(CustomPeriod(taskType, env), ActivePeriodForType(taskType)))
      && env.devices.Devices?
      && Registration(p.task, env.devices.list) == (if p.remind.Some? then [Register(p.remind.value)] else [])
      && (p.remind.Some? ==> p.remind.value.task == IdText(p.task.id, true) && p.remind.value.user == user)
  {
    hide ReminderTimes, CreateTask, Good, Color.NewColor, Color.IsNormal, DeviceRequests, RemindedDevices;
    if Prepare(req, env, taskType, user, id).Ok? {
      var color := Color.NewColor(req.color).value;
      Color.NewColorNormalizes(req.color, color);
      CustomPeriodPositive(taskType, env);
      CreateTaskGood(id, env.newId, env.now, user, req.title, taskType, req.description, req.scheduledAt, color,
          CustomPeriod(taskType, env));
      hide CustomPeriod;
      WithTokenMeaning(env.devices.list);
      DevicesAreReminded(env.devices.list);
    }
  }

  lemma CustomPeriodPositive(taskType: TaskType, env: CreateEnv)
    ensures CustomPeriod(taskType, env).Some? ==>
      CustomPeriod(taskType, env).value > 0 && CustomPeriod(taskType, env).value % MICROSECOND == 0
  {
    if env.settings.Some? && taskType in env.settings.value {
      var m := env.settings.value[taskType];
      MinutesAreMicroseconds(m);
    }
  }

  lemma PeriodIsChosen(taskType: TaskType, env: CreateEnv)
    ensures taskType in {Short, Near, Relaxed} ==>
      Or(CustomPeriod(taskType, env), ActivePeriodForType(taskType)) ==
      ChosenMinutes(taskType, env.settings) * 60_000_000_000
  {
  }

  lemma MinutesAreMicroseconds(m: int)
    ensures m * MINUTE % MICROSECOND == 0
  {
    var micros := m * 60_000_000;
    assert m * MINUTE == micros * MICROSECOND;
  }

  /** The create saga in one formula, from the checks' outcome on. */
  lemma CreateClosedForm(db: Db, req: CreateRequest, env: CreateEnv)
    ensures var (db', pc) := CreateAlone(db, req, env, CBegin);
      match Reaches(db, req, env)
      case Err(e) => (db', pc) == (db, CDone(Err(e)))
      case Ok(p) => (db', pc) == SagaFrom(db, env, p)
  {
    hide Prepare, SagaFrom, CreateAlone;
    var m := CreateUnfold(db, req, env, CBegin);
    if m.pc.CExists? {
      m := CreateUnfold(m.db, req, env, m.pc);
    }
    if m.pc.CSave? {
      SaveOnwards(db, req, env, m.pc.prepared);
    }
  }

  function SagaFrom(db: Db, env: CreateEnv, p: Prepared): (Db, CreatePc) {
    var t := p.task;
    var registered := db.queue + if p.remind.Some? then [Register(p.remind.value)] else [];
    if env.saveFails then (db, CDone(Err(StoreError(Unavailable))))
    else if t.id in db.tasks then (db, CDone(Err(StoreError(DuplicateKey))))
    else if p.remind.Some? && env.registerFails then
      (if env.rollbackFails then db.(tasks := db.tasks[t.id := TaskToRecord(t)])
          else db, CDone(Err(RegistrationFailed)))
    else if env.activateFails then
      (db.(tasks := db.tasks[t.id := TaskToRecord(t)], queue := registered), CDone(Err(StoreError(Unavailable))))
    else
      (db.(tasks := db.tasks[t.id := TaskToRecord(t.(status := Active))], queue := registered),
          CDone(Ok(t.(status := Active))))
  }

  lemma SaveOnwards(db: Db, req: CreateRequest, env: CreateEnv, p: Prepared)
    ensures CreateAlone(db, req, env, CSave(p)) == SagaFrom(db, env, p)
  {
    hide Prepare, PreparePc, CreateAlone, TaskToRecord;
    var t := p.task;
    var m := CreateUnfold(db, req, env, CSave(p));
    if m.pc.CRegister? {
      m := CreateUnfold(m.db, req, env, m.pc);
    }
    if m.pc.CRollback? {
      assert m.db.tasks[t.id].userId == t.userId by { RecordOwner(t); }
      assert db.tasks[t.id := TaskToRecord(t)] - {t.id} == db.tasks;
      m := CreateUnfold(m.db, req, env, m.pc);
    }
    if m.pc.CActivate? {
      RecordOwner(t);
      var registered := db.queue + if p.remind.Some? then [Register(p.remind.value)] else [];
      assert m.db == db.(tasks := db.tasks[t.id := TaskToRecord(t)], queue := registered);
      var active := TaskToRecord(t.(status := Active));
      assert db.tasks[t.id := TaskToRecord(t)][t.id := active] == db.tasks[t.id := active];
      m := CreateUnfold(m.db, req, env, m.pc);
    }
  }

  lemma RecordOwner(t: Task)
    ensures TaskToRecord(t).userId == t.userId && TaskToRecord(t).id == t.id
    ensures TaskToRecord(t).(status := StatusText(Active)) == TaskToRecord(t.(status := Active))
  {
  }

  /** A pending row that a failed create leaves behind. */
  predicate LeftPending(db: Db, db': Db, t: Task) {
    && t.status == PendingReminders && Good(t) && t.id !in db.tasks
    && db'.tasks == db.tasks[t.id := TaskToRecord(t)]
  }

  /** The saga's promise. On success the active row is new, and exactly one registration was queued if some
      device has a token (with exactly those devices in order and the task's reminder times), else none. On
      error nothing changed, unless the rollback delete or the final status update failed: then one
      pending row is left, with the registration queued only in the second case. */
  lemma CreateSaga(db: Db, req: CreateRequest, env: CreateEnv)
    ensures var (db', pc) := CreateAlone(db, req, env, CBegin);
      && pc.CDone? && db'.completed == db.completed
      && (pc.result.Ok? ==>
            var t := pc.result.value;
            && t.status == Active && Good(t) && Requested(t, req, env)
            && env.session == Valid(t.userId) && env.devices.Devices?
            && t.id !in db.tasks
            && db'.tasks == db.tasks[t.id := TaskToRecord(t)]
            && db'.queue == db.queue + Registration(t, env.devices.list))
      && (pc.result.Err? ==>
            || db' == db
            || (exists t ::
                  && LeftPending(db, db', t) && Requested(t, req, env)
                  && env.session == Valid(t.userId) && env.devices.Devices?
                  && if pc.result.error.RegistrationFailed?
                  then env.registerFails && env.rollbackFails && db'.queue == db.queue
                  else env.activateFails && db'.queue == db.queue + Registration(t, env.devices.list)))
  {
    CreateClosedForm(db, req, env);
    if Reaches(db, req, env).Ok? {
      var p := Reaches(db, req, env).value;
      PreparedFacts(db, req, env);
      hide CreateAlone, Reaches, TaskToRecord, ReminderTimes;
      StatusLeavesGood(p.task);
      StatusLeavesRegistration(p.task, env.devices.list);
      StatusLeavesRequested(p.task, req, env);
      hide Good, Registration, Requested;
      if !env.saveFails && p.task.id !in db.tasks && (env.activateFails || (p.remind.Some? && env.registerFails)) {
        assert Good(p.task);
        var (db', pc) := SagaFrom(db, env, p);
        assert db' == db || LeftPending(db, db', p.task);
      }
    }
  }

  lemma StatusLeavesGood(t: Task)
    requires Good(t)
    ensures Good(t.(status := Active))
  {
    hide TruncateMicro, Color.IsNormal, Color.Validate;
  }

  lemma StatusLeavesRegistration(t: Task, devices: seq<DeviceInfo>)
    ensures Registration(t.(status := Active), devices) == Registration(t, devices)
  {
    hide TimeLists.Closed, RoundedTimes;
  }

  lemma StatusLeavesRequested(t: Task, req: CreateRequest, env: CreateEnv)
    ensures Requested(t.(status := Active), req, env) == Requested(t, req, env)
  {
    hide CustomPeriod, TruncateMicro, Color.NewColor, AskedId;
  }

  lemma ReadKeepsKey(row: TaskRecord, t: Task, input: TaskUpdate)
    ensures RecordToTask(row) == Ok(t) ==>
      t.id == row.id && t.userId == row.userId && TypeText(t.taskType) == row.taskType
    ensures ApplyUpdate(t, input).Ok? ==>
      ApplyUpdate(t, input).value.id == t.id && ApplyUpdate(t, input).value.userId == t.userId
      && ApplyUpdate(t, input).value.taskType == t.taskType
  {
    hide Color.NewColor, Color.Validate;
  }

  /** Exactly the updates that succeed: the row is the user's and converts, the request can be applied to
      it, and the calls that it needs do not fail; a completed id must not be archived yet. */
  predicate UpdateGoesThrough(db: Db, taskId: IdArg, p: ProtoUpdate, env: UpdateEnv) {
    && taskId.GivenId? && env.session.Valid? && !env.readFails
    && Owns(db, taskId.text.id, env.session.user)
    && var row := db.tasks[taskId.text.id];
    && RecordToTask(row).Ok? && Updated(p, RecordToTask(row).value).Some?
    && if Updated(p, RecordToTask(row).value).value.status == Completed
       then !env.cancelFails && !env.archiveFails && taskId.text.id !in db.completed
       else !env.writeFails
  }

  /** What an update did to the tables and the queue. On success the change is the mask's, and the row is either
      overwritten in place or, when completed, moved to `completed_tasks` after a cancellation was queued; on error both
      tables are as they were, and at most the cancellation was queued. */
  predicate UpdateDid(db: Db, db': Db, taskId: IdArg, p: ProtoUpdate, env: UpdateEnv,
                      result: Result<Task, HandlerError>)
  {
    match result
    case Ok(u) =>
      && taskId.GivenId? && env.session.Valid?
      && var (id, user) := (taskId.text.id, env.session.user);
      && Owns(db, id, user) && RecordToTask(db.tasks[id]).Ok?
      && Updated(p, RecordToTask(db.tasks[id]).value) == Some(u)
      && if u.status == Completed then
           && u.id !in db.completed
           && db'.tasks == db.tasks - {id}
           && db'.completed == db.completed[u.id := CompletedTask(u.id, u.userId, u.title, u.taskType, u.description,
                u.scheduledAt, u.createdAt, u.targetAt, u.color, env.now / 1000 * 1000)]
           && db'.queue == db.queue + [Cancel(taskId.text, user)]
         else
           && Owns(db, u.id, u.userId)
           && db' == db.(tasks := db.tasks[u.id := Overwrite(db.tasks[u.id], u)])
    case Err(_) =>
      db'.tasks == db.tasks && db'.completed == db.completed && QueuedAtMostCancel(db, db', taskId, env.session)
  }

  predicate QueuedAtMostCancel(db: Db, db': Db, taskId: IdArg, session: Session) {
    || db'.queue == db.queue
    || (taskId.GivenId? && session.Valid? && db'.queue == db.queue + [Cancel(taskId.text, session.user)])
  }

  lemma UpdateEffects(db: Db, taskId: IdArg, p: ProtoUpdate, env: UpdateEnv)
    ensures var (db', pc) := UpdateAlone(db, taskId, p, env, UBegin);
      pc.UDone? && UpdateDid(db, db', taskId, p, env, pc.result)
  {
    hide ServiceRequest, UpdateInput, ScheduledAtConstraint, ApplyUpdate, UpdateAlone, RecordToTask, Overwrite;
    ServiceKeepsMask(p);
    var m := UpdateUnfold(db, taskId, p, env, UBegin);
    if m.pc.URead? {
      m := UpdateUnfold(m.db, taskId, p, env, m.pc);
      if m.pc.UCancel? {
        m := UpdateUnfold(m.db, taskId, p, env, m.pc);
      }
      if m.pc.UArchive? || m.pc.UWrite? {
        m := UpdateUnfold(m.db, taskId, p, env, m.pc);
      }
    }
  }

  lemma DecidesUpdated(user: UserId, text: IdText, p: ProtoUpdate, found: Result<Task, RepoError>)
    requires p.mask != [] && ServiceRequest(p).Ok? && UpdateInput(ServiceRequest(p).value).Ok?
    ensures var pc := UpdateDecide(user, text, UpdateInput(ServiceRequest(p).value).value, found);
      if found.Err? || Updated(p, found.value).None? then pc.UDone? && pc.result.Err?
      else
        var u := Updated(p, found.value).value;
        pc == if u.status == Completed then UCancel(user, text, u) else UWrite(u)
  {
    hide ServiceRequest, UpdateInput, ScheduledAtConstraint, ApplyUpdate;
  }

  lemma BeginsToRead(taskId: IdArg, p: ProtoUpdate, env: UpdateEnv)
    ensures var pc := UpdateBegin(taskId, p, env);
      if taskId.GivenId? && env.session.Valid? && p.mask != [] && ServiceRequest(p).Ok?
          && UpdateInput(ServiceRequest(p).value).Ok?
      then pc == URead(env.session.user, taskId.text, UpdateInput(ServiceRequest(p).value).value)
      else pc.UDone? && pc.result.Err?
  {
    ServiceKeepsMask(p);
    hide ServiceRequest, UpdateInput;
  }

  lemma KeyOfApplied(db: Db, id: TaskId, p: ProtoUpdate)
    requires KeyedRows(db) && id in db.tasks
    ensures RecordToTask(db.tasks[id]).Ok? && Updated(p, RecordToTask(db.tasks[id]).value).Some? ==>
      var u := Updated(p, RecordToTask(db.tasks[id]).value).value; u.id == id && u.userId == db.tasks[id].userId
  {
    AppliedKeepsKey(db.tasks[id], p);
    hide Updated, RecordToTask;
  }

  /** Without an applicable request nothing is ever applied. */
  lemma UpdatedNeedsInput(p: ProtoUpdate, t: Task)
    ensures Updated(p, t).Some? ==> p.mask != [] && ServiceRequest(p).Ok? && UpdateInput(ServiceRequest(p).value).Ok?
  {
    hide ServiceRequest, UpdateInput, ScheduledAtConstraint, ApplyUpdate;
  }

  lemma UpdateSucceeds(db: Db, taskId: IdArg, p: ProtoUpdate, env: UpdateEnv)
    requires KeyedRows(db)
    ensures var (db', pc) := UpdateAlone(db, taskId, p, env, UBegin);
      && pc.UDone? && (pc.result.Ok? <==> UpdateGoesThrough(db, taskId, p, env))
      && (pc.result.Ok? ==> pc.result.value.id == taskId.text.id && pc.result.value.userId == env.session.user)
  {
    hide ServiceRequest, UpdateInput, UpdateBegin, UpdateDecide, Updated, UpdateAlone, RecordToTask, Overwrite,
      TruncateMicro, KeyedRows;
    BeginsToRead(taskId, p, env);
    if taskId.GivenId? && taskId.text.id in db.tasks && RecordToTask(db.tasks[taskId.text.id]).Ok? {
      UpdatedNeedsInput(p, RecordToTask(db.tasks[taskId.text.id]).value);
    }
    var m := UpdateUnfold(db, taskId, p, env, UBegin);
    if m.pc.URead? {
      var (user, text) := (env.session.user, taskId.text);
      DecidesUpdated(user, text, p, Get(db, text.id, user, env.readFails));
      if Owns(db, text.id, user) {
        KeyOfApplied(db, text.id, p);
      }
      m := UpdateUnfold(m.db, taskId, p, env, m.pc);
      if m.pc.UCancel? {
        m := UpdateUnfold(m.db, taskId, p, env, m.pc);
      }
      if m.pc.UArchive? || m.pc.UWrite? {
        m := UpdateUnfold(m.db, taskId, p, env, m.pc);
      }
    }
  }

  /** The row `id` now reads back as the task; nothing else changed. */
  ghost predicate StoredAs(db: Db, db': Db, id: TaskId, u: Task) {
    && db'.completed == db.completed && db'.queue == db.queue
    && db'.tasks.Keys == db.tasks.Keys && (forall x | x in db.tasks && x != id :: db'.tasks[x] == db.tasks[x])
    && id in db'.tasks && RecordToTask(db'.tasks[id]) == Ok(u)
  }

  /** A row overwritten with a change of the task it held reads back as the changed task. */
  lemma OverwriteReadsBack(row: TaskRecord, p: ProtoUpdate, u: Task)
    ensures RecordToTask(row).Ok? && Updated(p, RecordToTask(row).value) == Some(u) ==>
      RecordToTask(Overwrite(row, u)) == Ok(u)
  {
    if RecordToTask(row).Ok? && Updated(p, RecordToTask(row).value) == Some(u) {
      var t := RecordToTask(row).value;
      ReadIsWellFormed(row);
      UpdatedIsWellFormed(p, t, u);
      TextsRead(row, t, u);
      Color.NewColorNormalizes(u.color.hex, u.color);
      hide RecordToTask, Updated;
      ReadsBack(row, t, u);
    }
  }

  lemma TextsRead(row: TaskRecord, t: Task, u: Task)
    requires RecordToTask(row) == Ok(t)
    ensures t.id == row.id && t.userId == row.userId && NewType(row.taskType) == Ok(t.taskType)
    ensures t.createdAt == TruncateMicro(row.createdAt)
  {
    hide TruncateMicro, NewType, NewStatus, Color.NewColor, Color.Validate;
  }

  lemma UpdatedIsWellFormed(p: ProtoUpdate, t: Task, u: Task)
    requires WellFormed(t) && Updated(p, t) == Some(u)
    ensures WellFormed(u)
    ensures u.id == t.id && u.userId == t.userId && u.taskType == t.taskType && u.createdAt == t.createdAt
  {
    UpdatedNeedsInput(p, t);
    ServiceSelects(p);
    var input := UpdateInput(ServiceRequest(p).value).value;
    if input.color.Some? {
      Color.NewColorNormalizes(p.color, input.color.value);
    }
    assert ApplyUpdate(t, input) == Ok(u);
    hide ServiceRequest, UpdateInput, Updated, Color.NewColor;
    AppliedIsWellFormed(t, input, u);
  }

  lemma AppliedIsWellFormed(t: Task, input: TaskUpdate, u: Task)
    requires WellFormed(t) && ApplyUpdate(t, input) == Ok(u)
    requires input.status.Some? ==> !input.status.value.OtherStatus?
    requires input.color.Some? ==> Color.IsNormal(input.color.value)
    ensures WellFormed(u)
    ensures u.id == t.id && u.userId == t.userId && u.taskType == t.taskType && u.createdAt == t.createdAt
  {
    hide TruncateMicro, Color.Validate, Color.IsNormal;
    var scheduled := if input.clearScheduledAt then None
                     else if input.scheduledAt.Some? then input.scheduledAt else t.scheduledAt;
    var target := if t.taskType == Scheduled && scheduled.Some? then scheduled.value else t.targetAt;
    NewTaskWellFormed(t.id, t.userId, Or(input.title, t.title), t.taskType, Or(input.status, t.status),
                      Or(input.description, t.description), scheduled, t.createdAt, target, Or(input.color, t.color));
  }

  lemma AppliedStatus(t: Task, input: TaskUpdate)
    ensures ApplyUpdate(t, input).Ok? ==> ApplyUpdate(t, input).value.status == Or(input.status, t.status)
  {
    hide TruncateMicro, Color.Validate;
  }

  lemma ReadsBack(row: TaskRecord, t: Task, u: Task)
    requires WellFormed(u) && u.id == row.id && u.userId == row.userId
    requires NewType(row.taskType) == Ok(u.taskType) && u.createdAt == TruncateMicro(row.createdAt)
    requires Color.NewColor(u.color.hex) == Ok(u.color)
    ensures RecordToTask(Overwrite(row, u)) == Ok(u)
  {
    StatusTextInverse(u.status);
    TruncateTwice(row.createdAt);
    hide NewType, NewStatus, StatusText, TruncateMicro, Color.NewColor, Color.IsNormal, Color.Validate;
  }

  lemma UpdateIsStored(db: Db, taskId: IdArg, p: ProtoUpdate, env: UpdateEnv)
    requires KeyedRows(db)
    ensures var (db', pc) := UpdateAlone(db, taskId, p, env, UBegin);
      pc.UDone? && pc.result.Ok? && pc.result.value.status != Completed ==>
        taskId.GivenId? && StoredAs(db, db', taskId.text.id, pc.result.value)
  {
    UpdateEffects(db, taskId, p, env);
    UpdateSucceeds(db, taskId, p, env);
    var (db', pc) := UpdateAlone(db, taskId, p, env, UBegin);
    hide UpdateAlone, Updated, RecordToTask, Overwrite, KeyedRows;
    if pc.UDone? && pc.result.Ok? {
      OverwriteReadsBack(db.tasks[taskId.text.id], p, pc.result.value);
    }
  }

  /** An update alone: what it did, and exactly when it succeeds, then for the id and the user of the request. */
  lemma UpdateOutcome(db: Db, taskId: IdArg, p: ProtoUpdate, env: UpdateEnv)
    ensures var (db', pc) := UpdateAlone(db, taskId, p, env, UBegin);
      && pc.UDone? && UpdateDid(db, db', taskId, p, env, pc.result)
      && (KeyedRows(db) ==>
            && (pc.result.Ok? <==> UpdateGoesThrough(db, taskId, p, env))
            && (pc.result.Ok? ==> pc.result.value.id == taskId.text.id && pc.result.value.userId == env.session.user)
            && (pc.result.Ok? && pc.result.value.status != Completed ==>
                  StoredAs(db, db', taskId.text.id, pc.result.value)))
  {
    UpdateEffects(db, taskId, p, env);
    if KeyedRows(db) {
      UpdateSucceeds(db, taskId, p, env);
      UpdateIsStored(db, taskId, p, env);
    }
    hide *;
  }

  lemma AppliedKeepsKey(row: TaskRecord, p: ProtoUpdate)
    ensures RecordToTask(row).Ok? && Updated(p, RecordToTask(row).value).Some? ==>
      var u := Updated(p, RecordToTask(row).value).value; u.id == row.id && u.userId == row.userId
  {
    hide ServiceRequest, UpdateInput, ScheduledAtConstraint, ApplyUpdate, RecordToTask;
    if RecordToTask(row).Ok? && ServiceRequest(p).Ok? && UpdateInput(ServiceRequest(p).value).Ok? {
      ReadKeepsKey(row, RecordToTask(row).value, UpdateInput(ServiceRequest(p).value).value);
    }
  }

  lemma ServiceKeepsMask(p: ProtoUpdate)
    ensures ServiceRequest(p).Ok? ==> ServiceRequest(p).value.mask == p.mask
  {
  }

  /** A delete: on success the user's row is gone and a cancellation was queued first; on error the tables
      are as they were. A row the user does not have is reported missing, after the cancellation. */
  lemma DeleteOutcome(db: Db, taskId: IdArg, env: DeleteEnv)
    ensures var (db', pc) := DeleteAlone(db, taskId, env, DBegin);
      && pc.DDone? && db'.completed == db.completed
      && (pc.error.None? ==>
            && taskId.GivenId? && env.session.Valid? && Owns(db, taskId.text.id, env.session.user)
            && db'.tasks == db.tasks - {taskId.text.id}
            && db'.queue == db.queue + [Cancel(taskId.text, env.session.user)])
      && (pc.error.Some? ==>
            db'.tasks == db.tasks && QueuedAtMostCancel(db, db', taskId, env.session))
      && (pc.error == Some(TaskNotFound) <==>
            && taskId.GivenId? && env.session.Valid? && !env.cancelFails && !env.deleteFails
            && !Owns(db, taskId.text.id, env.session.user))
  {
    hide DeleteAlone;
    var m := DeleteUnfold(db, taskId, env, DBegin);
    if m.pc.DCancel? {
      m := DeleteUnfold(m.db, taskId, env, m.pc);
      if m.pc.DDelete? {
        m := DeleteUnfold(m.db, taskId, env, m.pc);
      }
    }
  }
}
