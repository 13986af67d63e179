/** Any number of task handlers interleaved, one database or queue call at a time, each able to stop
    dead after any of its steps. A run is a list of actions; an action that is not possible changes nothing. */
module TaskMachine {
  import opened Wrappers
  import opened TaskDomain
  import opened TaskRecords
  import opened TaskTables
  import opened UpdateMask
  import opened TaskHandlers
  import opened TaskOutcomes
  import Color

  /** A handler call under way or finished. */
  datatype Call =
    | Create(req: CreateRequest, createEnv: CreateEnv, cpc: CreatePc)
    | Update(taskId: IdArg, change: ProtoUpdate, updateEnv: UpdateEnv, upc: UpdatePc)
    | Delete(taskId: IdArg, deleteEnv: DeleteEnv, dpc: DeletePc)

  predicate Finished(c: Call) {
    match c
    case Create(_, _, pc) => pc.CDone?
    case Update(_, _, _, pc) => pc.UDone?
    case Delete(_, _, pc) => pc.DDone?
  }

  /** `log` records the rows that appeared and left, in order. */
  datatype System = System(db: Db, calls: map<nat, Call>, log: seq<Event>)

  const INITIAL := System(EMPTY_DB, map[], [])

  datatype Action =
    | StartCreate(call: nat, req: CreateRequest, createEnv: CreateEnv)
    | StartUpdate(call: nat, taskId: IdArg, change: ProtoUpdate, updateEnv: UpdateEnv)
    | StartDelete(call: nat, taskId: IdArg, deleteEnv: DeleteEnv)
    | Advance(call: nat)
    | Crash(call: nat)

  function Begin(s: System, i: nat, c: Call): System {
    if i in s.calls then s else s.(calls := s.calls[i := c])
  }

  function StepCall(db: Db, c: Call): Move<Call> {
    match c
    case Create(req, env, pc) =>
      var m := CreateStep(db, req, env, pc);
      Move(m.db, Create(req, env, m.pc), m.event)
    case Update(taskId, change, env, pc) =>
      var m := UpdateStep(db, taskId, change, env, pc);
      Move(m.db, Update(taskId, change, env, m.pc), m.event)
    case Delete(taskId, env, pc) =>
      var m := DeleteStep(db, taskId, env, pc);
      Move(m.db, Delete(taskId, env, m.pc), m.event)
  }

  function Apply(s: System, a: Action): System {
    match a
    case StartCreate(i, req, env) => Begin(s, i, Create(req, env, CBegin))
    case StartUpdate(i, taskId, change, env) => Begin(s, i, Update(taskId, change, env, UBegin))
    case StartDelete(i, taskId, env) => Begin(s, i, Delete(taskId, env, DBegin))
    case Advance(i) =>
      if i !in s.calls then s
      else
        var m := StepCall(s.db, s.calls[i]);
        System(m.db, s.calls[i := m.pc], s.log + if m.event.Some? then [m.event.value] else [])
    case Crash(i) => s.(calls := s.calls - {i})
  }

  function Run(s: System, actions: seq<Action>): System
    decreases |actions|
  {
    if actions == [] then s else Run(Apply(s, actions[0]), actions[1..])
  }

  /** The state after the first `n` actions. */
  function At(actions: seq<Action>, n: nat): System
    requires n <= |actions|
  {
    Run(INITIAL, actions[..n])
  }

  lemma {:induction false} RunAppended(s: System, actions: seq<Action>, a: Action)
    ensures Run(s, actions + [a]) == Apply(Run(s, actions), a)
    decreases |actions|
  {
    if actions == [] {
      assert Run(Apply(s, a), []) == Apply(s, a);
    } else {
      assert (actions + [a])[1..] == actions[1..] + [a];
      RunAppended(Apply(s, actions[0]), actions[1..], a);
    }
  }

  lemma AtNext(actions: seq<Action>, n: nat)
    requires n < |actions|
    ensures At(actions, n + 1) == Apply(At(actions, n), actions[n])
  {
    assert actions[..n + 1] == actions[..n] + [actions[n]];
    RunAppended(INITIAL, actions[..n], actions[n]);
  }

  lemma AtEnd(actions: seq<Action>)
    ensures At(actions, |actions|) == Run(INITIAL, actions)
  {
    assert actions[..|actions|] == actions;
  }

  // ------------------------------------------------------------ rows and ledger

  /** What a call carries names the row its request names. */
  predicate KeyedCall(c: Call) {
    match c
    case Create(_, _, pc) =>
      (match pc
       case CSave(p) => KeyedRemind(p)
       case CRegister(p) => KeyedRemind(p)
       case CRollback(p) => KeyedRemind(p)
       case _ => true)
    case Update(_, _, _, pc) =>
      (match pc
       case UCancel(user, text, u) => u.id == text.id && u.userId == user
       case UArchive(user, text, u) => u.id == text.id && u.userId == user
       case _ => true)
    case Delete(_, _, _) => true
  }

  predicate KeyedRemind(p: Prepared) {
    p.remind.Some? ==> p.remind.value.task == IdText(p.task.id, true) && p.remind.value.user == p.task.userId
  }

  ghost predicate Keyed(s: System) {
    KeyedRows(s.db) && forall i | i in s.calls :: KeyedCall(s.calls[i])
  }

  /** How a step changes the set of rows, by the event it logs. */
  ghost predicate RowsMove(db: Db, db': Db, e: Option<Event>) {
    match e
    case None => db'.tasks.Keys == db.tasks.Keys && db'.completed == db.completed
    case Some(Saved(id)) => id !in db.tasks && db'.tasks.Keys == db.tasks.Keys + {id} && db'.completed == db.completed
    case Some(Deleted(id)) => id in db.tasks && db'.tasks.Keys == db.tasks.Keys - {id} && db'.completed == db.completed
    case Some(Archived(id)) =>
      && id in db.tasks && db'.tasks.Keys == db.tasks.Keys - {id}
      && id !in db.completed && db'.completed.Keys == db.completed.Keys + {id}
  }

  /** A step leaves the id, the owner, the type and the creation time of every row that stays. */
  ghost predicate ColumnsStay(db: Db, db': Db) {
    forall id | id in db.tasks && id in db'.tasks ::
      && db'.tasks[id].id == db.tasks[id].id && db'.tasks[id].userId == db.tasks[id].userId
      && db'.tasks[id].taskType == db.tasks[id].taskType && db'.tasks[id].createdAt == db.tasks[id].createdAt
  }

  lemma StepKeepsKeys(db: Db, c: Call)
    requires KeyedRows(db) && KeyedCall(c)
    ensures var m := StepCall(db, c);
      && KeyedRows(m.db) && KeyedCall(m.pc)
      && RowsMove(db, m.db, m.event)
      && ColumnsStay(db, m.db)
  {
    match c {
      case Create(req, env, pc) => CreateKeepsKeys(db, req, env, pc);
      case Update(taskId, change, env, pc) => UpdateKeepsKeys(db, taskId, change, env, pc);
      case Delete(taskId, env, pc) =>
    }
  }

  lemma CreateKeepsKeys(db: Db, req: CreateRequest, env: CreateEnv, pc: CreatePc)
    requires KeyedRows(db) && KeyedCall(Create(req, env, pc))
    ensures var m := StepCall(db, Create(req, env, pc));
      && KeyedRows(m.db) && KeyedCall(m.pc)
      && RowsMove(db, m.db, m.event)
      && ColumnsStay(db, m.db)
  {
    hide Prepare;
    if pc.CBegin? && PassesBegin(req, env) && req.taskId.NoId? {
      PreparedIsKeyed(req, env, env.session.user, None);
    } else if pc.CExists? && TypeFromProto(req.taskType).Some? {
      PreparedIsKeyed(req, env, pc.user, Some(pc.text.id));
    }
  }

  predicate PassesBegin(req: CreateRequest, env: CreateEnv) {
    TypeFromProto(req.taskType).Some? && env.session.Valid?
  }

  lemma PreparedIsKeyed(req: CreateRequest, env: CreateEnv, user: UserId, id: Option<TaskId>)
    requires TypeFromProto(req.taskType).Some?
    ensures var pc := PreparePc(req, env, user, id);
      pc.CSave? ==> KeyedRemind(pc.prepared) && Good(pc.prepared.task) && pc.prepared.task.status == PendingReminders
  {
    hide Prepare, Good;
    if Prepare(req, env, TypeFromProto(req.taskType).value, user, id).Ok? {
      PrepareFacts(req, env, TypeFromProto(req.taskType).value, user, id);
    }
  }

  lemma UpdateKeepsKeys(db: Db, taskId: IdArg, change: ProtoUpdate, env: UpdateEnv, pc: UpdatePc)
    requires KeyedRows(db) && KeyedCall(Update(taskId, change, env, pc))
    ensures var m := StepCall(db, Update(taskId, change, env, pc));
      && KeyedRows(m.db) && KeyedCall(m.pc)
      && RowsMove(db, m.db, m.event)
      && ColumnsStay(db, m.db)
  {
    hide ServiceRequest, UpdateInput, ApplyUpdate, RecordToTask, ScheduledAtConstraint;
    if pc.URead? {
      var found := Get(db, pc.text.id, pc.user, env.readFails);
      if found.Ok? {
        ReadKeepsKey(db.tasks[pc.text.id], found.value, pc.input);
      }
    }
  }

  function Count(log: seq<Event>, e: Event): nat {
    multiset(log)[e]
  }

  /** Saves minus deletes minus archives is one for a row in `tasks`, zero otherwise, and an id was
      archived once if it is in `completed_tasks`, otherwise never. */
  ghost predicate Ledger(s: System) {
    forall id :: Balanced(s, id)
  }

  predicate Balanced(s: System, id: TaskId) {
    && Count(s.log, Saved(id)) ==
         Count(s.log, Deleted(id)) + Count(s.log, Archived(id)) + (if id in s.db.tasks then 1 else 0)
    && Count(s.log, Archived(id)) == if id in s.db.completed then 1 else 0
  }

  lemma LedgerStep(s: System, a: Action)
    requires Keyed(s) && Ledger(s)
    ensures Keyed(Apply(s, a)) && Ledger(Apply(s, a))
  {
    if a.Advance? && a.call in s.calls {
      var c := s.calls[a.call];
      StepKeepsKeys(s.db, c);
      var m := StepCall(s.db, c);
      var s' := Apply(s, a);
      hide StepCall, KeyedCall, KeyedRows;
      assert Keyed(s');
      LedgerMoves(s, s', m.event);
    } else {
      forall id
        ensures Balanced(Apply(s, a), id)
      {
        assert Balanced(s, id);
      }
    }
  }

  lemma CountAppended(log: seq<Event>, e: Event, f: Event)
    ensures Count(log + [e], f) == Count(log, f) + if e == f then 1 else 0
  {
    assert multiset(log + [e]) == multiset(log) + multiset{e};
  }

  lemma LedgerMoves(s: System, s': System, e: Option<Event>)
    requires Ledger(s) && RowsMove(s.db, s'.db, e)
    requires s'.log == s.log + if e.Some? then [e.value] else []
    ensures Ledger(s')
  {
    hide Count;
    forall id
      ensures Balanced(s', id)
    {
      assert Balanced(s, id);
      if e.None? {
        assert s'.log == s.log;
      } else {
        CountAppended(s.log, e.value, Saved(id));
        CountAppended(s.log, e.value, Deleted(id));
        CountAppended(s.log, e.value, Archived(id));
      }
    }
  }

  lemma {:induction false} LedgerInvariant(s: System, actions: seq<Action>)
    requires Keyed(s) && Ledger(s)
    ensures Keyed(Run(s, actions)) && Ledger(Run(s, actions))
    decreases |actions|
  {
    if actions != [] {
      LedgerStep(s, actions[0]);
      LedgerInvariant(Apply(s, actions[0]), actions[1..]);
    }
  }

  /** Over every interleaved run with failures and crashes the ledger of every id balances: its
      saves, less its deletes and archives, are the one row it has or none. At most one
      archive per id ever commits, and once there is one, later rows of that id only leave by deletion. */
  lemma RowLedger(actions: seq<Action>, id: TaskId)
    ensures var s := Run(INITIAL, actions);
      && Count(s.log, Saved(id)) - Count(s.log, Deleted(id)) - Count(s.log, Archived(id)) ==
          (if id in s.db.tasks then 1 else 0)
      && Count(s.log, Archived(id)) <= 1
      && (id in s.db.completed <==> Count(s.log, Archived(id)) == 1)
  {
    LedgerInvariant(INITIAL, actions);
    assert Balanced(Run(INITIAL, actions), id);
  }

  /** However many completes and deletes (and failed creates) compete for a row saved once, exactly
      one of them takes it away, or none and the row is still there. */
  lemma OneConsumerWins(actions: seq<Action>, id: TaskId)
    requires Count(Run(INITIAL, actions).log, Saved(id)) == 1
    ensures var s := Run(INITIAL, actions);
      Count(s.log, Deleted(id)) + Count(s.log, Archived(id)) == if id in s.db.tasks then 0 else 1
  {
    LedgerInvariant(INITIAL, actions);
    assert Balanced(Run(INITIAL, actions), id);
  }

  /** Archived rows are for good: no step changes or removes one. */
  lemma StepKeepsArchive(db: Db, c: Call, id: TaskId)
    requires id in db.completed
    ensures var db' := StepCall(db, c).db; id in db'.completed && db'.completed[id] == db.completed[id]
  {
    hide PreparePc, ServiceRequest, UpdateInput, ApplyUpdate, RecordToTask, ScheduledAtConstraint, TaskToRecord,
        Overwrite;
  }

  lemma {:induction false} ArchiveStays(s: System, actions: seq<Action>, id: TaskId)
    requires id in s.db.completed
    ensures id in Run(s, actions).db.completed && Run(s, actions).db.completed[id] == s.db.completed[id]
    decreases |actions|
  {
    if actions != [] {
      var a := actions[0];
      if a.Advance? && a.call in s.calls {
        StepKeepsArchive(s.db, s.calls[a.call], id);
      }
      hide StepCall;
      ArchiveStays(Apply(s, a), actions[1..], id);
    }
  }

  /** A completed id can be created again, since the existence check looks at `tasks` only. But its archived row
      stays as it is, and no later row of that id is ever archived: such a row can only be deleted. */
  lemma CompletedIdIsNeverArchivedAgain(actions: seq<Action>, more: seq<Action>, id: TaskId)
    requires id in Run(INITIAL, actions).db.completed
    ensures var (s, s') := (Run(INITIAL, actions), Run(Run(INITIAL, actions), more));
      && id in s'.db.completed && s'.db.completed[id] == s.db.completed[id]
      && Count(s'.log, Archived(id)) == Count(s.log, Archived(id)) == 1
      && Count(s'.log, Saved(id)) == Count(s'.log, Deleted(id)) + 1 + if id in s'.db.tasks then 1 else 0
  {
    LedgerInvariant(INITIAL, actions);
    LedgerInvariant(Run(INITIAL, actions), more);
    assert Balanced(Run(INITIAL, actions), id) && Balanced(Run(Run(INITIAL, actions), more), id);
    ArchiveStays(Run(INITIAL, actions), more, id);
  }
}
