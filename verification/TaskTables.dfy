/** The two task tables and the message queue, and the repository calls on them.

    Each call is a function on the value `Db`, giving the new state or an error that leaves the
    state alone, and a method of `TaskStore` that does the same in place. `fails` says that the
    database or queue call itself failed; such a call has no effect. */
module TaskTables {
  import opened Wrappers
  import GoTime
  import opened TaskDomain
  import opened TaskRecords

  /** The text of an id in a request: `uuid.Parse` accepts several spellings of one id. */
  datatype IdText = IdText(id: TaskId, canonical: bool)

  datatype DeviceRequest = DeviceRequest(deviceId: string, fcmToken: string)

  datatype RemindRequest = RemindRequest(
    times: seq<GoTime.Instant>,
    user: UserId,
    devices: seq<DeviceRequest>,
    task: IdText,
    taskType: TaskType,
    color: string)

  /** A queued message carries the task's id as text and the user's id. */
  datatype Message =
    | Register(request: RemindRequest)
    | Cancel(task: IdText, user: UserId)

  datatype Db = Db(
    tasks: map<TaskId, TaskRecord>,
    completed: map<TaskId, CompletedTask>,
    queue: seq<Message>)

  const EMPTY_DB := Db(map[], map[], [])

  datatype RepoError = Unavailable | DuplicateKey | NotFound | BadRow(rowError: TaskError)

  /** The id is the primary key. */
  predicate KeyedRows(db: Db) {
    forall id | id in db.tasks :: db.tasks[id].id == id
  }

  /** The row `(id, userId)` that the `WHERE` clauses select. */
  predicate Owns(db: Db, id: TaskId, userId: UserId) {
    id in db.tasks && db.tasks[id].userId == userId
  }

  function Save(db: Db, t: Task, fails: bool): Result<Db, RepoError> {
    if fails then Err(Unavailable)
    else if t.id in db.tasks then Err(DuplicateKey)
    else Ok(db.(tasks := db.tasks[t.id := TaskToRecord(t)]))
  }

  function Get(db: Db, id: TaskId, userId: UserId, fails: bool): Result<Task, RepoError> {
    if fails then Err(Unavailable)
    else if !Owns(db, id, userId) then Err(NotFound)
    else match RecordToTask(db.tasks[id])
      case Ok(t) => Ok(t)
      case Err(e) => Err(BadRow(e))
  }

  /** The six columns an update writes. */
  function Overwrite(row: TaskRecord, t: Task): TaskRecord {
    row.(status := StatusText(t.status), title := t.title, description := t.description,
         scheduledAt := t.scheduledAt, targetAt := t.targetAt, color := t.color.hex)
  }

  function Update(db: Db, t: Task, fails: bool): Result<Db, RepoError> {
    if fails then Err(Unavailable)
    else if !Owns(db, t.id, t.userId) then Err(NotFound)
    else Ok(db.(tasks := db.tasks[t.id := Overwrite(db.tasks[t.id], t)]))
  }

  function UpdateStatus(db: Db, id: TaskId, userId: UserId, status: Status, fails: bool): Result<Db, RepoError> {
    if fails then Err(Unavailable)
    else if !Owns(db, id, userId) then Err(NotFound)
    else Ok(db.(tasks := db.tasks[id := db.tasks[id].(status := StatusText(status))]))
  }

  function Delete(db: Db, id: TaskId, userId: UserId, fails: bool): Result<Db, RepoError> {
    if fails then Err(Unavailable)
    else if !Owns(db, id, userId) then Err(NotFound)
    else Ok(db.(tasks := db.tasks - {id}))
  }

  /** One transaction: insert into `completed_tasks`, delete from `tasks`; either both or neither. */
  function Archive(db: Db, c: CompletedTask, id: TaskId, userId: UserId, fails: bool): Result<Db, RepoError> {
    if fails then Err(Unavailable)
    else if c.id in db.completed then Err(DuplicateKey)
    else if !Owns(db, id, userId) then Err(NotFound)
    else Ok(db.(completed := db.completed[c.id := c], tasks := db.tasks - {id}))
  }

  function Enqueue(db: Db, m: Message, fails: bool): Result<Db, RepoError> {
    if fails then Err(Unavailable) else Ok(db.(queue := db.queue + [m]))
  }

  /** The state after a call. */
  function After(r: Result<Db, RepoError>, before: Db): Db {
    if r.Ok? then r.value else before
  }

  /** What the call reports. */
  function ErrorOf(r: Result<Db, RepoError>): Option<RepoError> {
    if r.Ok? then None else Some(r.error)
  }

  /** Nothing but the row `id` changed. */
  ghost predicate Others(before: map<TaskId, TaskRecord>, after: map<TaskId, TaskRecord>, id: TaskId) {
    forall x | x != id :: (x in after <==> x in before) && (x in after ==> after[x] == before[x])
  }

  /** What a call that changes the row `(id, userId)` reports. */
  function RowError(tasks: map<TaskId, TaskRecord>, id: TaskId, userId: UserId, fails: bool): Option<RepoError> {
    if fails then Some(Unavailable)
    else if id !in tasks || tasks[id].userId != userId then Some(NotFound)
    else None
  }

  class TaskStore {
    var tasks: map<TaskId, TaskRecord>
    var completed: map<TaskId, CompletedTask>
    var queue: seq<Message>

    constructor ()
      ensures View() == EMPTY_DB
    {
      tasks, completed, queue := map[], map[], [];
    }

    ghost function View(): Db
      reads this
    {
      Db(tasks, completed, queue)
    }

    method SaveTask(t: Task, fails: bool) returns (err: Option<RepoError>)
      modifies this
      ensures var r := Save(old(View()), t, fails); View() == After(r, old(View())) && err == ErrorOf(r)
      ensures err == if fails then Some(Unavailable) else if t.id in old(tasks) then Some(DuplicateKey) else None
      ensures if err.Some? then tasks == old(tasks) else tasks.Keys == old(tasks).Keys + {t.id}
      ensures err.None? && WellFormed(t) ==> RecordToTask(tasks[t.id]) == Ok(t)
      ensures Others(old(tasks), tasks, t.id) && completed == old(completed) && queue == old(queue)
    {
      RowRoundTrip(t);
      hide TaskToRecord, RecordToTask, WellFormed;
      if fails {
        return Some(Unavailable);
      }
      if t.id in tasks {
        return Some(DuplicateKey);
      }
      tasks := tasks[t.id := TaskToRecord(t)];
      return None;
    }

    method GetTaskByID(id: TaskId, userId: UserId, fails: bool) returns (r: Result<Task, RepoError>)
      ensures r == Get(View(), id, userId, fails)
      ensures
        if fails then r == Err(Unavailable)
        else if id !in tasks || tasks[id].userId != userId then r == Err(NotFound)
        else match RecordToTask(tasks[id])
          case Ok(t) => r == Ok(t)
          case Err(e) => r == Err(BadRow(e))
    {
      if fails {
        return Err(Unavailable);
      }
      if id !in tasks || tasks[id].userId != userId {
        return Err(NotFound);
      }
      var t := RecordToTask(tasks[id]);
      if t.Err? {
        return Err(BadRow(t.error));
      }
      return Ok(t.value);
    }

    method ExistsTaskByID(id: TaskId, fails: bool) returns (r: Result<bool, RepoError>)
      ensures r == if fails then Err(Unavailable) else Ok(id in tasks)
    {
      if fails {
        return Err(Unavailable);
      }
      return Ok(id in tasks);
    }

    method UpdateTask(t: Task, fails: bool) returns (err: Option<RepoError>)
      modifies this
      ensures var r := Update(old(View()), t, fails); View() == After(r, old(View())) && err == ErrorOf(r)
      ensures err == RowError(old(tasks), t.id, t.userId, fails)
      ensures if err.Some? then tasks == old(tasks) else tasks.Keys == old(tasks).Keys
      ensures err.None? ==>
        var (was, row) := (old(tasks)[t.id], tasks[t.id]);
        && row.title == t.title && row.description == t.description && row.color == t.color.hex
        && (!t.status.OtherStatus? ==> NewStatus(row.status) == Ok(t.status))
        && row.scheduledAt == t.scheduledAt && row.targetAt == t.targetAt
        && row.id == was.id && row.userId == was.userId
        && row.taskType == was.taskType && row.createdAt == was.createdAt
      ensures Others(old(tasks), tasks, t.id) && completed == old(completed) && queue == old(queue)
    {
      if fails {
        return Some(Unavailable);
      }
      if t.id !in tasks || tasks[t.id].userId != t.userId {
        return Some(NotFound);
      }
      tasks := tasks[t.id := Overwrite(tasks[t.id], t)];
      return None;
    }

    method UpdateTaskStatus(id: TaskId, userId: UserId, status: Status, fails: bool) returns (err: Option<RepoError>)
      modifies this
      ensures var r := UpdateStatus(old(View()), id, userId, status, fails);
        View() == After(r, old(View())) && err == ErrorOf(r)
      ensures err == RowError(old(tasks), id, userId, fails)
      ensures if err.Some? then tasks == old(tasks) else tasks.Keys == old(tasks).Keys
      ensures err.None? && !status.OtherStatus? ==>
        NewStatus(tasks[id].status) == Ok(status) && tasks[id] == old(tasks)[id].(status := tasks[id].status)
      ensures Others(old(tasks), tasks, id) && completed == old(completed) && queue == old(queue)
    {
      if fails {
        return Some(Unavailable);
      }
      if id !in tasks || tasks[id].userId != userId {
        return Some(NotFound);
      }
      tasks := tasks[id := tasks[id].(status := StatusText(status))];
      return None;
    }

    method DeleteTask(id: TaskId, userId: UserId, fails: bool) returns (err: Option<RepoError>)
      modifies this
      ensures var r := Delete(old(View()), id, userId, fails); View() == After(r, old(View())) && err == ErrorOf(r)
      ensures err == RowError(old(tasks), id, userId, fails)
      ensures tasks == if err.Some? then old(tasks) else old(tasks) - {id}
      ensures completed == old(completed) && queue == old(queue)
    {
      if fails {
        return Some(Unavailable);
      }
      if id !in tasks || tasks[id].userId != userId {
        return Some(NotFound);
      }
      tasks := tasks - {id};
      return None;
    }

    /** The transaction inserts first and is rolled back when there is nothing to delete. */
    method ArchiveTask(c: CompletedTask, id: TaskId, userId: UserId, fails: bool) returns (err: Option<RepoError>)
      modifies this
      ensures var r := Archive(old(View()), c, id, userId, fails); View() == After(r, old(View())) && err == ErrorOf(r)
      ensures err == if !fails && c.id in old(completed) then Some(DuplicateKey)
                     else RowError(old(tasks), id, userId, fails)
      ensures tasks == if err.Some? then old(tasks) else old(tasks) - {id}
      ensures completed == if err.Some? then old(completed) else old(completed)[c.id := c]
      ensures queue == old(queue)
    {
      if fails {
        return Some(Unavailable);
      }
      if c.id in completed {
        return Some(DuplicateKey);
      }
      var before := completed;
      completed := completed[c.id := c];
      if id !in tasks || tasks[id].userId != userId {
        completed := before;
        return Some(NotFound);
      }
      tasks := tasks - {id};
      return None;
    }

    /** `RegisterRemind` and `CancelRemind`: a failed call queues nothing. */
    method Send(m: Message, fails: bool) returns (err: Option<RepoError>)
      modifies this
      ensures var r := Enqueue(old(View()), m, fails); View() == After(r, old(View())) && err == ErrorOf(r)
      ensures err == if fails then Some(Unavailable) else None
      ensures queue == if fails then old(queue) else old(queue) + [m]
      ensures tasks == old(tasks) && completed == old(completed)
    {
      if fails {
        return Some(Unavailable);
      }
      queue := queue + [m];
      return None;
    }

    /** `ListActiveTasksByUserID`, given the ids of the selected rows in the order the database returns them.
        It fails if the query does, or with the error of the first row that does not convert. */
    method ListActiveTasksByUserID(userId: UserId, ids: seq<TaskId>, fails: bool)
        returns (r: Result<seq<Task>, RepoError>)
      requires IsQueryResult(View(), userId, ids)
      ensures r.Ok? <==> !fails && forall i :: 0 <= i < |ids| ==> RecordToTask(tasks[ids[i]]).Ok?
      ensures fails ==> r == Err(Unavailable)
      ensures !fails && r.Err? ==>
        exists i :: 0 <= i < |ids| && RecordToTask(tasks[ids[i]]).Err?
            && r.error == BadRow(RecordToTask(tasks[ids[i]]).error)
                    && forall j :: 0 <= j < i ==> RecordToTask(tasks[ids[j]]).Ok?
      ensures r.Ok? ==> |r.value| == |ids| && forall i :: 0 <= i < |ids| ==>
          Ok(r.value[i]) == RecordToTask(tasks[ids[i]])
    {
      hide RecordToTask, ListedBefore;
      assert forall i :: 0 <= i < |ids| ==> ids[i] in tasks;
      if fails {
        return Err(Unavailable);
      }
      var found: seq<Task> := [];
      for i := 0 to |ids|
        invariant |found| == i
        invariant forall j :: 0 <= j < i ==> RecordToTask(tasks[ids[j]]) == Ok(found[j])
      {
        var t := RecordToTask(tasks[ids[i]]);
        if t.Err? {
          return Err(BadRow(t.error));
        }
        found := found + [t.value];
      }
      return Ok(found);
    }
  }

  /** The rows the list query selects. */
  predicate IsListed(db: Db, userId: UserId, id: TaskId) {
    Owns(db, id, userId) && db.tasks[id].status in {"active", "pending_reminders"}
  }

  predicate ListedBefore(a: TaskRecord, b: TaskRecord) {
    a.targetAt < b.targetAt || (a.targetAt == b.targetAt && a.createdAt >= b.createdAt)
  }

  /** `ids` names each selected row once, by target time and then the newest first. */
  ghost predicate IsQueryResult(db: Db, userId: UserId, ids: seq<TaskId>) {
    && (forall i, j :: 0 <= i < j < |ids| ==> ids[i] != ids[j])
    && (forall i :: 0 <= i < |ids| ==> IsListed(db, userId, ids[i]))
    && (forall id :: IsListed(db, userId, id) ==> id in ids)
    && (forall i, j :: 0 <= i < j < |ids| ==> ListedBefore(db.tasks[ids[i]], db.tasks[ids[j]]))
  }
}
