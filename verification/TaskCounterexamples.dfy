/** Runs that show where the safety claims stop: each is a reachable state of the machine. */
module TaskCounterexamples {
  import opened Wrappers
  import opened GoTime
  import opened TaskDomain
  import opened TaskRecords
  import opened TaskTables
  import opened UpdateMask
  import opened Reminders
  import opened TaskHandlers
  import opened TaskMachine
  import opened ReminderSafety
  import opened ReminderSpelling
  import Color

  ghost predicate Reachable(s: System) {
    exists actions :: Run(INITIAL, actions) == s
  }

  lemma Next(s: System, a: Action) returns (s': System)
    requires Reachable(s)
    ensures s' == Apply(s, a) && Reachable(s')
  {
    var actions :| Run(INITIAL, actions) == s;
    RunAppended(INITIAL, actions, a);
    s' := Apply(s, a);
  }

  /** One more step of a call, given what the step does. */
  lemma Step(s: System, call: nat, m: Move<Call>) returns (s': System)
    requires Reachable(s) && call in s.calls && StepCall(s.db, s.calls[call]) == m
    ensures Reachable(s') && s'.db == m.db && s'.calls == s.calls[call := m.pc]
  {
    s' := Next(s, Advance(call));
  }

  lemma Start(s: System, a: Action, c: Call) returns (s': System)
    requires Reachable(s) && a.call !in s.calls && Apply(s, a) == Begin(s, a.call, c)
    ensures Reachable(s') && s'.db == s.db && s'.calls == s.calls[a.call := c]
  {
    s' := Next(s, a);
  }

  const BLACK := Color.Color("#000000")
  const TEXT := IdText(7, true)

  function SampleRequest(taskType: ProtoType, scheduledAt: Option<Instant>): CreateRequest {
    CreateRequest(GivenId(TEXT), "", taskType, "", scheduledAt, "#000000")
  }

  function SampleEnv(devices: seq<DeviceInfo>): CreateEnv {
    CreateEnv(Valid(1), false, None, 0, None, Devices(devices), false, false, false, false)
  }

  function SampleTask(taskType: TaskType, scheduledAt: Option<Instant>): Task {
    Task(7, 1, "", taskType, PendingReminders, "", scheduledAt, 0, if taskType == Scheduled then Or(scheduledAt, 0)
        else ACTIVE_PERIOD_SHORT, BLACK)
  }

  lemma BlackIsNormal()
    ensures Color.IsNormal(BLACK) && Color.NewColor("#000000") == Ok(BLACK) && Color.Validate(BLACK).None?
  {
    Color.NewColorNormalizes("#000000", BLACK);
  }

  /** A create for task 7 of user 1 that has passed all its checks. */
  lemma SamplePrepared(taskType: ProtoType, scheduledAt: Option<Instant>, devices: seq<DeviceInfo>)
      returns (p: Prepared)
    requires if scheduledAt == None then taskType == TypeShort
             else taskType == TypeScheduled && scheduledAt == Some(HOUR)
    ensures PreparePc(SampleRequest(taskType, scheduledAt), SampleEnv(devices), 1, Some(7)) == CSave(p)
    ensures p.task == SampleTask(TypeFromProto(taskType).value, scheduledAt)
    ensures WithToken(devices) == [] ==> p.remind == None
    ensures WithToken(devices) != [] ==> p.remind.Some? && p.remind.value.task == TEXT && p.remind.value.user == 1
  {
    BlackIsNormal();
    hide Color.NewColor, Color.Validate, Color.IsNormal, ReminderTimes, WithToken, DeviceRequests;
    var t := TypeFromProto(taskType).value;
    assert TruncateMicro(0) == 0 && TruncateMicro(HOUR) == HOUR
        && TruncateMicro(ACTIVE_PERIOD_SHORT) == ACTIVE_PERIOD_SHORT;
    assert CreateTask(Some(7), None, 0, 1, "", t, "", scheduledAt, BLACK, None) == Ok(SampleTask(t, scheduledAt));
    p := PreparePc(SampleRequest(taskType, scheduledAt), SampleEnv(devices), 1, Some(7)).prepared;
  }

  /** Starting a create of task 7 and letting it save its row. */
  lemma CreateAndSave(s: System, call: nat, taskType: ProtoType, scheduledAt: Option<Instant>, devices: seq<DeviceInfo>)
    returns (s': System, p: Prepared)
    requires Reachable(s) && call !in s.calls && 7 !in s.db.tasks
    requires if scheduledAt == None then taskType == TypeShort
             else taskType == TypeScheduled && scheduledAt == Some(HOUR)
    ensures Reachable(s')
    ensures p.task == SampleTask(TypeFromProto(taskType).value, scheduledAt)
    ensures WithToken(devices) != [] ==> p.remind.Some? && p.remind.value.task == TEXT && p.remind.value.user == 1
    ensures s'.db == s.db.(tasks := s.db.tasks[7 := TaskToRecord(p.task)])
    ensures s'.calls == s.calls[call := Create(SampleRequest(taskType, scheduledAt), SampleEnv(devices),
                                               if p.remind.Some? then CRegister(p) else CActivate(p))]
  {
    hide PreparePc, TaskToRecord, WithToken;
    p := SamplePrepared(taskType, scheduledAt, devices);
    var req, env := SampleRequest(taskType, scheduledAt), SampleEnv(devices);
    s' := Start(s, StartCreate(call, req, env), Create(req, env, CBegin));
    CreateMoves(s.db, taskType, scheduledAt, devices, p);
    hide *;
    s' := Step(s', call, StepCall(s.db, Create(req, env, CBegin)));
    s' := Step(s', call, StepCall(s.db, Create(req, env, CExists(1, TEXT))));
    s' := Step(s', call, StepCall(s.db, Create(req, env, CSave(p))));
  }

  lemma CreateMoves(db: Db, taskType: ProtoType, scheduledAt: Option<Instant>, devices: seq<DeviceInfo>, p: Prepared)
    requires 7 !in db.tasks && p.task.id == 7
    requires taskType == TypeShort || taskType == TypeScheduled
    ensures var req, env := SampleRequest(taskType, scheduledAt), SampleEnv(devices);
      PreparePc(req, env, 1, Some(7)) == CSave(p) ==>
      && StepCall(db, Create(req, env, CBegin)) == Move(db, Create(req, env, CExists(1, TEXT)), None)
      && StepCall(db, Create(req, env, CExists(1, TEXT))) == Move(db, Create(req, env, CSave(p)), None)
      && StepCall(db, Create(req, env, CSave(p))) ==
           Move(db.(tasks := db.tasks[7 := TaskToRecord(p.task)]),
                Create(req, env, if p.remind.Some? then CRegister(p) else CActivate(p)), Some(Saved(7)))
  {
    hide PreparePc, TaskToRecord;
  }

  /** Starting a delete of task 7, spelled in some way, and letting it finish. */
  lemma DeleteSample(s: System, call: nat, text: IdText) returns (s': System)
    requires Reachable(s) && call !in s.calls && Owns(s.db, 7, 1) && text.id == 7
    ensures Reachable(s')
    ensures s'.db == s.db.(tasks := s.db.tasks - {7}, queue := s.db.queue + [Cancel(text, 1)])
    ensures forall i :: i in s.calls ==> i in s'.calls && s'.calls[i] == s.calls[i]
    ensures s'.calls.Keys == s.calls.Keys + {call} && s'.calls[call].Delete? && s'.calls[call].dpc == DDone(None)
  {
    hide Run;
    var env := DeleteEnv(Valid(1), false, false);
    s' := Next(s, StartDelete(call, GivenId(text), env));
    s' := Next(s', Advance(call));
    assert s'.calls == s.calls[call := Delete(GivenId(text), env, DCancel(1, text))];
    s' := Next(s', Advance(call));
    assert s'.calls == s.calls[call := Delete(GivenId(text), env, DDelete(1, text))];
    s' := Next(s', Advance(call));
  }

  /** A create overlapped by a delete of the same task can leave a dangling reminder: the delete
      cancels and removes the row between the create's save and its registration. */
  lemma OverlapCanDangle() returns (s: System)
    ensures Reachable(s) && Pending(s.db.queue, 7, 1) && 7 !in s.db.tasks
  {
    assert Run(INITIAL, []) == INITIAL;
    var devices := [DeviceInfo("phone", Some("token"))];
    assert devices[..0] == [];
    assert WithToken(devices) == WithToken(devices[..0]) + [devices[0]];
    var saved, p := CreateAndSave(INITIAL, 0, TypeShort, None, devices);
    hide Run, WithToken, TaskToRecord;
    RecordIds(p.task);
    var deleted := DeleteSample(saved, 1, TEXT);
    s := Next(deleted, Advance(0));
    assert s.db.queue == deleted.db.queue + [Register(p.remind.value)];
    PendingAppended(deleted.db.queue, Register(p.remind.value), 7, 1);
  }

  /** A create of task 7 that has succeeded and queued its registration. */
  lemma CreatedSample() returns (s: System, r: RemindRequest)
    ensures Reachable(s) && s.calls.Keys == {0} && Owns(s.db, 7, 1)
    ensures s.calls[0].Create? && s.calls[0].cpc.CDone? && s.calls[0].cpc.result.Ok?
    ensures s.db.queue == [Register(r)] && r.task == TEXT && r.user == 1
  {
    assert Run(INITIAL, []) == INITIAL;
    var devices := [DeviceInfo("phone", Some("token"))];
    assert devices[..0] == [];
    assert WithToken(devices) == WithToken(devices[..0]) + [devices[0]];
    var saved, p := CreateAndSave(INITIAL, 0, TypeShort, None, devices);
    hide Run, WithToken, TaskToRecord;
    RecordIds(p.task);
    r := p.remind.value;
    var (req, env) := (SampleRequest(TypeShort, None), SampleEnv(devices));
    var registered := saved.db.(queue := saved.db.queue + [Register(r)]);
    FinishMoves(saved.db, req, env, p);
    assert registered.queue == [Register(r)];
    hide *;
    s := Step(saved, 0, StepCall(saved.db, Create(req, env, CRegister(p))));
    s := Step(s, 0, StepCall(registered, Create(req, env, CActivate(p))));
  }

  lemma FinishMoves(db: Db, req: CreateRequest, env: CreateEnv, p: Prepared)
    requires p.remind.Some? && !env.registerFails && !env.activateFails && Owns(db, p.task.id, p.task.userId)
    ensures var db' := db.(queue := db.queue + [Register(p.remind.value)]);
      && StepCall(db, Create(req, env, CRegister(p))) == Move(db', Create(req, env, CActivate(p)), None)
      && var m := StepCall(db', Create(req, env, CActivate(p)));
      && m.db.queue == db'.queue && Owns(m.db, p.task.id, p.task.userId)
      && m.pc == Create(req, env, CDone(Ok(p.task.(status := Active))))
  {
    hide StatusText;
  }

  /** A task created and then deleted, one call after the other and both successful, whose reminder is still
      pending under the id's canonical text: the delete's request spelled the id another way. */
  lemma OtherSpellingCanDangle() returns (s: System)
    ensures Reachable(s) && s.calls.Keys == {0, 1}
    ensures s.calls[0].Create? && s.calls[0].cpc.CDone? && s.calls[0].cpc.result.Ok?
    ensures s.calls[1].Delete? && s.calls[1].dpc == DDone(None)
    ensures PendingText(s.db.queue, TEXT, 1) && 7 !in s.db.tasks
  {
    var created, r := CreatedSample();
    hide Reachable;
    s := DeleteSample(created, 1, IdText(7, false));
    assert [] + [Register(r)] == [Register(r)];
    PendingTextAppended([], Register(r), TEXT, 1);
    PendingTextAppended(created.db.queue, Cancel(IdText(7, false), 1), TEXT, 1);
  }

  lemma RecordIds(t: Task)
    ensures TaskToRecord(t).id == t.id && TaskToRecord(t).userId == t.userId
  {
  }

  /** An update of task 7 that has read its row and asks for another scheduled time. */
  lemma ReadSample(s: System, call: nat) returns (s': System, u: Task)
    requires Reachable(s) && call !in s.calls
    requires 7 in s.db.tasks && s.db.tasks[7] == TaskToRecord(SampleTask(Scheduled, Some(HOUR)))
    ensures Reachable(s') && s'.db == s.db
    ensures s'.calls.Keys == s.calls.Keys + {call}
    ensures s'.calls[call].Update? && s'.calls[call].upc == UWrite(u) && !s'.calls[call].updateEnv.writeFails
    ensures u.id == 7 && u.userId == 1 && u.scheduledAt.Some? && u.status == PendingReminders
  {
    var change := ProtoUpdate([ScheduledAtPath], ProtoUnspecified, "", "", Some(2 * HOUR), "");
    var env := UpdateEnv(Valid(1), false, false, 0, false, false);
    u := SampleTask(Scheduled, Some(2 * HOUR));
    s' := Start(s, StartUpdate(call, GivenId(TEXT), change, env), Update(GivenId(TEXT), change, env, UBegin));
    ReadMoves(s.db, change, env, u);
    var input := NO_UPDATE.(scheduledAt := Some(2 * HOUR));
    assert u.id == 7 && u.userId == 1 && u.scheduledAt.Some? && u.status == PendingReminders;
    hide *;
    s' := Step(s', call, StepCall(s.db, Update(GivenId(TEXT), change, env, UBegin)));
    s' := Step(s', call, StepCall(s.db, Update(GivenId(TEXT), change, env, URead(1, TEXT, input))));
  }

  lemma ReadMoves(db: Db, change: ProtoUpdate, env: UpdateEnv, u: Task)
    requires 7 in db.tasks && db.tasks[7] == TaskToRecord(SampleTask(Scheduled, Some(HOUR)))
    requires change == ProtoUpdate([ScheduledAtPath], ProtoUnspecified, "", "", Some(2 * HOUR), "")
    requires env == UpdateEnv(Valid(1), false, false, 0, false, false)
    requires u == SampleTask(Scheduled, Some(2 * HOUR))
    ensures var input := NO_UPDATE.(scheduledAt := Some(2 * HOUR));
      && StepCall(db, Update(GivenId(TEXT), change, env, UBegin)) ==
          Move(db, Update(GivenId(TEXT), change, env, URead(1, TEXT, input)), None)
      && StepCall(db, Update(GivenId(TEXT), change, env, URead(1, TEXT, input))) ==
          Move(db, Update(GivenId(TEXT), change, env, UWrite(u)), None)
  {
    var t := SampleTask(Scheduled, Some(HOUR));
    InputOfScheduledAt(change);
    SampleReadsBack(t);
    SampleApplies(t, NO_UPDATE.(scheduledAt := Some(2 * HOUR)), u);
    RecordIds(t);
    hide RecordToTask, TaskToRecord, ServiceRequest, UpdateInput, ApplyUpdate;
  }

  lemma InputOfScheduledAt(change: ProtoUpdate)
    requires change.mask == [ScheduledAtPath] && change.scheduledAt.Some?
    ensures ServiceRequest(change).Ok?
    ensures ServiceRequest(change).value.mask == change.mask
    ensures UpdateInput(ServiceRequest(change).value) == Ok(NO_UPDATE.(scheduledAt := change.scheduledAt))
  {
    var req := ServiceRequest(change).value;
    assert InputAfter(req, 0) == Ok(NO_UPDATE);
    assert InputAfter(req, 1) == TakeField(req, NO_UPDATE, req.mask[0]);
  }

  lemma SampleReadsBack(t: Task)
    requires t == SampleTask(Scheduled, Some(HOUR))
    ensures RecordToTask(TaskToRecord(t)) == Ok(t)
  {
    BlackIsNormal();
    hide Color.IsNormal, Color.Validate, Color.NewColor, TaskToRecord, RecordToTask;
    assert TruncateMicro(0) == 0 && TruncateMicro(HOUR) == HOUR;
    RowRoundTrip(t);
  }

  lemma SampleApplies(t: Task, input: TaskUpdate, u: Task)
    requires t == SampleTask(Scheduled, Some(HOUR)) && input == NO_UPDATE.(scheduledAt := Some(2 * HOUR))
    requires u == SampleTask(Scheduled, Some(2 * HOUR))
    ensures ApplyUpdate(t, input) == Ok(u)
  {
    BlackIsNormal();
    hide Color.IsNormal, Color.Validate, Color.NewColor;
    assert TruncateMicro(0) == 0 && TruncateMicro(2 * HOUR) == 2 * HOUR;
  }

  /** An update that has read the row of task 7 while a delete took the row away. */
  lemma ReadThenDeleted() returns (s: System, u: Task)
    ensures Reachable(s) && s.calls.Keys == {0, 1, 2} && 7 !in s.db.tasks
    ensures s.calls[1].Update? && s.calls[1].upc == UWrite(u) && !s.calls[1].updateEnv.writeFails
    ensures u.id == 7 && u.userId == 1 && u.scheduledAt.Some? && u.status == PendingReminders
  {
    assert Run(INITIAL, []) == INITIAL;
    assert WithToken([]) == [];
    assert Reachable(INITIAL);
    hide Reachable, TaskToRecord, RecordToTask, WithToken, SampleTask, StepCall;
    var s1, p := CreateAndSave(INITIAL, 0, TypeScheduled, Some(HOUR), []);
    s, u := ReadSample(s1, 1);
    SampleOwner(Scheduled, Some(HOUR));
    s := DeleteSample(s, 2, TEXT);
  }

  /** If an id comes back under an update that still holds its old row, the update can write a scheduled
      time into a row of another type. That row no longer converts, so its owner's list fails. */
  lemma StaleUpdateCanSpoilRow() returns (s: System)
    ensures Reachable(s) && Owns(s.db, 7, 1) && IsListed(s.db, 1, 7) && RecordToTask(s.db.tasks[7]).Err?
  {
    hide Reachable, TaskToRecord, RecordToTask, WithToken, SampleTask, StepCall;
    var s3, u := ReadThenDeleted();
    var s4, q := CreateAndSave(s3, 3, TypeShort, None, []);
    SampleOwner(Short, None);
    WriteMove(s4.db, s4.calls[1], u);
    s := Step(s4, 1, StepCall(s4.db, s4.calls[1]));
    SpoiledRow(q.task, u);
  }

  lemma WriteMove(db: Db, c: Call, u: Task)
    requires c.Update? && c.upc == UWrite(u) && !c.updateEnv.writeFails && Owns(db, u.id, u.userId)
    ensures StepCall(db, c).db == db.(tasks := db.tasks[u.id := Overwrite(db.tasks[u.id], u)])
  {
  }

  lemma SampleOwner(taskType: TaskType, scheduledAt: Option<Instant>)
    ensures var t := SampleTask(taskType, scheduledAt);
      TaskToRecord(t).id == 7 && TaskToRecord(t).userId == 1
          && TaskToRecord(t).status == StatusText(PendingReminders) && t.taskType == taskType
  {
  }

  lemma SpoiledRow(q: Task, u: Task)
    requires q.taskType == Short && u.scheduledAt.Some?
    ensures RecordToTask(Overwrite(TaskToRecord(q), u)).Err?
    ensures Overwrite(TaskToRecord(q), u).userId == q.userId
        && Overwrite(TaskToRecord(q), u).status == StatusText(u.status)
  {
    hide Color.NewColor, Color.Validate, TruncateMicro;
  }
}
