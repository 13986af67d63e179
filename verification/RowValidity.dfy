/** When the rows of `tasks` stay good, in every interleaved run: exactly as long as no update writes what it made
    from an old row over a row of another kind. */
module RowValidity {
  import opened Wrappers
  import GoTime
  import opened TaskDomain
  import opened TaskRecords
  import opened TaskTables
  import opened UpdateMask
  import opened TaskHandlers
  import opened TaskOutcomes
  import opened TaskMachine
  import Color

  /** A row as every read expects it: it converts to a good task, active or pending. */
  predicate GoodRow(row: TaskRecord) {
    && RecordToTask(row).Ok?
    && Good(RecordToTask(row).value)
    && TaskToRecord(RecordToTask(row).value) == row
    && OpenStatus(RecordToTask(row).value.status)
  }

  predicate OpenStatus(s: Status) {
    s.Active? || s.PendingReminders?
  }

  lemma GoodTaskGoodRow(t: Task)
    requires Good(t) && OpenStatus(t.status)
    ensures GoodRow(TaskToRecord(t))
  {
    RowRoundTrip(t);
    hide RecordToTask, TaskToRecord, TimesAgree, WellFormed;
  }

  ghost predicate GoodRows(db: Db) {
    forall id | id in db.tasks :: GoodRow(db.tasks[id])
  }

  /** What a good row says, column by column. */
  lemma GoodRowColumns(row: TaskRecord)
    requires GoodRow(row)
    ensures row.status in {"active", "pending_reminders"}
    ensures row.taskType in {"short", "near", "relaxed", "scheduled"}
    ensures row.taskType == "scheduled" ==> row.scheduledAt == Some(row.targetAt)
    ensures row.taskType != "scheduled" ==> row.scheduledAt == None
    ensures row.createdAt <= row.targetAt
  {
    var t := RecordToTask(row).value;
    hide WellFormed, RecordToTask;
    TypeTextInverse(t.taskType);
    TypeTextInverse(Scheduled);
    assert TaskToRecord(t) == row;
  }

  /** A change as the service layer lets it through. */
  predicate GoodInput(u: TaskUpdate) {
    && (u.status.Some? ==> u.status.value.Active? || u.status.value.Completed?)
    && (u.color.Some? ==> Color.IsNormal(u.color.value))
  }

  /** What a call is about to write is good. */
  predicate GoodCall(c: Call) {
    match c
    case Create(_, _, pc) => pc.CSave? ==> Good(pc.prepared.task) && OpenStatus(pc.prepared.task.status)
    case Update(_, _, _, pc) =>
      && (pc.URead? ==> GoodInput(pc.input))
      && (pc.UWrite? ==> Good(pc.updated) && OpenStatus(pc.updated.status))
    case Delete(_, _, _) => true
  }

  ghost predicate GoodCalls(s: System) {
    forall i | i in s.calls :: GoodCall(s.calls[i])
  }

  ghost predicate GoodSystem(s: System) {
    Keyed(s) && GoodRows(s.db) && GoodCalls(s)
  }

  /** An overwrite leaves the type and the creation time of the row, so the times it writes must suit those:
      both are scheduled or neither is, and the new target does not precede the row's creation. */
  predicate Suits(row: TaskRecord, u: Task) {
    && (row.taskType == "scheduled" <==> u.taskType == Scheduled)
    && row.createdAt <= u.targetAt
  }

  /** The write takes effect on a row that it does not suit. */
  predicate SpoilingWrite(db: Db, c: Call) {
    && c.Update? && c.upc.UWrite? && !c.updateEnv.writeFails
    && Owns(db, c.upc.updated.id, c.upc.updated.userId)
    && !Suits(db.tasks[c.upc.updated.id], c.upc.updated)
  }

  predicate Spoils(s: System, a: Action) {
    a.Advance? && a.call in s.calls && SpoilingWrite(s.db, s.calls[a.call])
  }

  predicate NeverSpoils(actions: seq<Action>) {
    forall n | 0 <= n < |actions| :: !Spoils(At(actions, n), actions[n])
  }

  /** Exactly the overwrites that suit the row keep it good. */
  lemma OverwriteGoodExactly(row: TaskRecord, u: Task)
    ensures GoodRow(row) && Good(u) && OpenStatus(u.status) && row.id == u.id && row.userId == u.userId ==>
      (GoodRow(Overwrite(row, u)) <==> Suits(row, u))
  {
    hide GoodRow, RecordToTask, WellFormed;
    var row' := Overwrite(row, u);
    if GoodRow(row) && Good(u) && OpenStatus(u.status) && row.id == u.id && row.userId == u.userId {
      GoodRowColumns(row);
      if GoodRow(row') {
        GoodRowColumns(row');
      } else if Suits(row, u) {
        MergedIsGood(row, u);
      }
    }
  }

  /** The task that a suitable overwrite leaves in the row. */
  lemma MergedIsGood(row: TaskRecord, u: Task)
    ensures GoodRow(row) && Good(u) && OpenStatus(u.status) && Suits(row, u) && row.id == u.id && row.userId == u.userId
      ==> GoodRow(Overwrite(row, u))
  {
    if GoodRow(row) && Good(u) && OpenStatus(u.status) && Suits(row, u) && row.id == u.id && row.userId == u.userId {
      hide RecordToTask, WellFormed;
      var t := RecordToTask(row).value;
      var merged := u.(taskType := t.taskType, createdAt := t.createdAt);
      assert TaskToRecord(t) == row;
      MergedFields(t, u);
      assert Overwrite(row, u) == TaskToRecord(merged);
      GoodTaskGoodRow(merged);
    }
  }

  lemma MergedFields(t: Task, u: Task)
    requires Good(t) && Good(u)
    requires (t.taskType == Scheduled <==> u.taskType == Scheduled) && t.createdAt <= u.targetAt
    ensures Good(u.(taskType := t.taskType, createdAt := t.createdAt))
  {
    hide GoTime.TruncateMicro, Color.Validate, Color.IsNormal;
  }

  /** What a step does to good rows: it keeps them all exactly if it is not a spoiling write. */
  lemma StepWritesGood(db: Db, c: Call)
    requires KeyedRows(db) && KeyedCall(c) && GoodRows(db) && GoodCall(c)
    ensures var m := StepCall(db, c);
      GoodCall(m.pc) && (GoodRows(m.db) <==> !SpoilingWrite(db, c))
  {
    hide CreateStep, UpdateStep, DeleteStep, GoodRow, GoodRows, Suits;
    match c {
      case Create(req, env, pc) => CreateWritesGood(db, req, env, pc);
      case Update(taskId, change, env, pc) => UpdateWritesGood(db, taskId, change, env, pc);
      case Delete(taskId, env, pc) => DeleteWritesGood(db, taskId, env, pc);
    }
  }

  lemma DeleteWritesGood(db: Db, taskId: IdArg, env: DeleteEnv, pc: DeletePc)
    requires GoodRows(db)
    ensures GoodRows(StepCall(db, Delete(taskId, env, pc)).db)
  {
    hide GoodRow;
  }

  lemma CreateWritesGood(db: Db, req: CreateRequest, env: CreateEnv, pc: CreatePc)
    requires KeyedRows(db) && GoodRows(db) && GoodCall(Create(req, env, pc))
    ensures var m := StepCall(db, Create(req, env, pc));
      GoodRows(m.db) && GoodCall(m.pc)
  {
    hide Prepare, Good, GoodRow, TaskToRecord;
    match pc {
      case CBegin =>
        if PassesBegin(req, env) && req.taskId.NoId? {
          PreparedIsKeyed(req, env, env.session.user, None);
        }
      case CExists(user, text) =>
        if TypeFromProto(req.taskType).Some? {
          PreparedIsKeyed(req, env, user, Some(text.id));
        }
      case CSave(p) => GoodTaskGoodRow(p.task);
      case CActivate(p) =>
        if Owns(db, p.task.id, p.task.userId) {
          ActivatedRowGood(db.tasks[p.task.id]);
        }
      case _ =>
    }
  }

  lemma ActivatedRowGood(row: TaskRecord)
    requires GoodRow(row)
    ensures GoodRow(row.(status := StatusText(Active)))
  {
    hide RecordToTask, Good;
    var t := RecordToTask(row).value;
    StatusLeavesGood(t);
    GoodTaskGoodRow(t.(status := Active));
    assert TaskToRecord(t.(status := Active)) == row.(status := StatusText(Active));
  }

  lemma UpdateWritesGood(db: Db, taskId: IdArg, change: ProtoUpdate, env: UpdateEnv, pc: UpdatePc)
    requires KeyedRows(db) && GoodRows(db) && GoodCall(Update(taskId, change, env, pc))
    ensures var m := StepCall(db, Update(taskId, change, env, pc));
      GoodCall(m.pc) && (GoodRows(m.db) <==> !SpoilingWrite(db, Update(taskId, change, env, pc)))
  {
    hide ServiceRequest, UpdateInput, ApplyUpdate, RecordToTask, ScheduledAtConstraint, Good, GoodRow, TaskToRecord,
      TypeText, StatusText, GoodInput, Suits;
    match pc {
      case UBegin =>
        if ServiceRequest(change).Ok? && UpdateInput(ServiceRequest(change).value).Ok? {
          ServiceInputGood(change);
        }
      case URead(user, text, input) =>
        if Owns(db, text.id, user) {
          ReadAndChangeGood(db.tasks[text.id], input);
        }
      case UWrite(u) =>
        if Owns(db, u.id, u.userId) && !env.writeFails {
          OverwriteGoodExactly(db.tasks[u.id], u);
          var db' := db.(tasks := db.tasks[u.id := Overwrite(db.tasks[u.id], u)]);
          assert GoodRows(db') ==> GoodRow(db'.tasks[u.id]);
        }
      case _ =>
    }
  }

  lemma ServiceInputGood(p: ProtoUpdate)
    requires ServiceRequest(p).Ok? && UpdateInput(ServiceRequest(p).value).Ok?
    ensures GoodInput(UpdateInput(ServiceRequest(p).value).value)
  {
    ServiceSelects(p);
    var u := UpdateInput(ServiceRequest(p).value).value;
    if u.color.Some? {
      Color.NewColorNormalizes(p.color, u.color.value);
    }
  }

  predicate SameOrigin(row: TaskRecord, u: Task) {
    row.taskType == TypeText(u.taskType) && row.createdAt == u.createdAt
  }

  lemma ReadAndChangeGood(row: TaskRecord, input: TaskUpdate)
    requires GoodRow(row) && GoodInput(input)
    ensures RecordToTask(row).Ok?
    ensures var r := ApplyUpdate(RecordToTask(row).value, input);
      r.Ok? ==>
        && Good(r.value) && SameOrigin(row, r.value)
        && r.value.id == row.id && r.value.userId == row.userId
        && (r.value.status == Completed || OpenStatus(r.value.status))
  {
    var t := RecordToTask(row).value;
    ReadKeepsKey(row, t, input);
    ApplyUpdateGood(t, input);
    AppliedStatus(t, input);
    hide RecordToTask, ApplyUpdate, Good;
    assert TaskToRecord(t).createdAt == row.createdAt;
  }

  lemma GoodStep(s: System, a: Action)
    requires GoodSystem(s)
    ensures var s' := Apply(s, a);
      Keyed(s') && GoodCalls(s') && (GoodRows(s'.db) <==> !Spoils(s, a))
  {
    if a.Advance? && a.call in s.calls {
      StepKeepsKeys(s.db, s.calls[a.call]);
      StepWritesGood(s.db, s.calls[a.call]);
    }
    hide StepCall, KeyedCall, KeyedRows, GoodRows, GoodCall, SpoilingWrite;
  }

  lemma {:induction false} GoodUpTo(actions: seq<Action>, n: nat)
    requires n <= |actions| && forall k | 0 <= k < n :: !Spoils(At(actions, k), actions[k])
    ensures GoodSystem(At(actions, n))
  {
    if n > 0 {
      GoodUpTo(actions, n - 1);
      AtNext(actions, n - 1);
      GoodStep(At(actions, n - 1), actions[n - 1]);
    }
  }

  lemma {:induction false} GoodSoNotSpoiled(actions: seq<Action>, n: nat)
    requires n <= |actions| && forall k | 0 <= k <= n :: GoodRows(At(actions, k).db)
    ensures forall k | 0 <= k < n :: !Spoils(At(actions, k), actions[k])
  {
    hide At, Apply, GoodRows, Spoils, GoodCalls, Keyed;
    if n > 0 {
      GoodSoNotSpoiled(actions, n - 1);
      GoodUpTo(actions, n - 1);
      AtNext(actions, n - 1);
      GoodStep(At(actions, n - 1), actions[n - 1]);
    }
  }

  /** Exactly when rows stay good: in every interleaved run with failures and crashes, all rows are good after
      every step if and only if no write takes effect on a row it does not suit. */
  lemma RowsGoodExactly(actions: seq<Action>)
    ensures (forall n | 0 <= n <= |actions| :: GoodRows(At(actions, n).db)) <==> NeverSpoils(actions)
  {
    hide At, GoodRows, Spoils;
    if NeverSpoils(actions) {
      forall n | 0 <= n <= |actions|
        ensures GoodRows(At(actions, n).db)
      {
        GoodUpTo(actions, n);
      }
    }
    if forall n | 0 <= n <= |actions| :: GoodRows(At(actions, n).db) {
      GoodSoNotSpoiled(actions, |actions|);
    }
  }

  /** In such runs every row converts, is active or pending, and its times agree with its type. */
  lemma RowsStayGood(actions: seq<Action>, id: TaskId)
    requires NeverSpoils(actions)
    requires id in Run(INITIAL, actions).db.tasks
    ensures var row := Run(INITIAL, actions).db.tasks[id];
      && row.id == id && RecordToTask(row).Ok? && row.taskType in {"short", "near", "relaxed", "scheduled"}
      && row.status in {"active", "pending_reminders"}
      && (row.taskType == "scheduled" ==> row.scheduledAt == Some(row.targetAt))
      && (row.taskType != "scheduled" ==> row.scheduledAt == None)
      && row.createdAt <= row.targetAt
  {
    GoodUpTo(actions, |actions|);
    AtEnd(actions);
    hide Run, At, RecordToTask;
    GoodRowColumns(Run(INITIAL, actions).db.tasks[id]);
  }

  /** The list query never fails to convert a row and returns all of the user's rows. */
  lemma ListReturnsAll(actions: seq<Action>, userId: UserId, ids: seq<TaskId>, id: TaskId)
    requires NeverSpoils(actions)
    requires IsQueryResult(Run(INITIAL, actions).db, userId, ids)
    ensures var db := Run(INITIAL, actions).db;
      && (forall i :: 0 <= i < |ids| ==> RecordToTask(db.tasks[ids[i]]).Ok?)
      && (Owns(db, id, userId) <==> id in ids)
  {
    var db := Run(INITIAL, actions).db;
    forall x | x in db.tasks
      ensures RecordToTask(db.tasks[x]).Ok?
      ensures db.tasks[x].status in {"active", "pending_reminders"}
    {
      RowsStayGood(actions, x);
    }
    hide Run, RecordToTask, NeverSpoils;
  }

  /** And no step clears the scheduled time of a row that stays, or changes its owner, its type or its creation time. */
  lemma ScheduledTimeStays(actions: seq<Action>, n: nat, id: TaskId)
    requires NeverSpoils(actions) && n < |actions|
    ensures var (db, db') := (At(actions, n).db, At(actions, n + 1).db);
      id in db.tasks && id in db'.tasks ==>
        && (db.tasks[id].scheduledAt.Some? <==> db'.tasks[id].scheduledAt.Some?)
        && db'.tasks[id].userId == db.tasks[id].userId
        && db'.tasks[id].taskType == db.tasks[id].taskType
        && db'.tasks[id].createdAt == db.tasks[id].createdAt
  {
    GoodUpTo(actions, n);
    GoodUpTo(actions, n + 1);
    AtNext(actions, n);
    hide At, NeverSpoils, GoodRow;
    var (s, s', a) := (At(actions, n), At(actions, n + 1), actions[n]);
    if a.Advance? && a.call in s.calls {
      StepKeepsKeys(s.db, s.calls[a.call]);
    }
    hide StepCall, KeyedRows, KeyedCall;
    if id in s.db.tasks && id in s'.db.tasks {
      GoodRowColumns(s.db.tasks[id]);
      GoodRowColumns(s'.db.tasks[id]);
    }
  }
}
