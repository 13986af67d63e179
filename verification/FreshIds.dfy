/** Runs in which no update holds the row of an id that was deleted and created again. Distinct ids in the
    requests to create are enough for that, and then no row is ever spoiled. */
module FreshIds {
  import opened Wrappers
  import opened TaskDomain
  import opened TaskRecords
  import opened TaskTables
  import opened UpdateMask
  import Reminders
  import opened TaskHandlers
  import TaskOutcomes
  import opened TaskMachine
  import opened RowValidity
  import GoTime
  import Color

  /** The row a call read is gone, or it is still of the type and creation time that were read. */
  predicate KeepsOrigin(db: Db, c: Call) {
    c.Update? && c.upc.UWrite? && Owns(db, c.upc.updated.id, c.upc.updated.userId) ==>
      SameOrigin(db.tasks[c.upc.updated.id], c.upc.updated)
  }

  ghost predicate Origins(s: System) {
    forall i | i in s.calls :: KeepsOrigin(s.db, s.calls[i])
  }

  /** No create is about to bring an id back while an update still holds a row of that id that is gone. */
  ghost predicate NoStaleSave(s: System) {
    forall i, j | i in s.calls && j in s.calls :: !StaleSave(s.db, s.calls[i], s.calls[j])
  }

  predicate StaleSave(db: Db, c: Call, d: Call) {
    && c.Create? && c.cpc.CSave? && c.cpc.prepared.task.id !in db.tasks
    && d.Update? && d.upc.UWrite? && d.upc.updated.id == c.cpc.prepared.task.id
  }

  ghost predicate NeverStale(actions: seq<Action>) {
    forall n | 0 <= n <= |actions| :: NoStaleSave(At(actions, n))
  }

  lemma StepReadsOrigin(db: Db, c: Call)
    requires KeyedRows(db) && KeyedCall(c) && GoodRows(db) && GoodCall(c) && KeepsOrigin(db, c)
    ensures KeepsOrigin(StepCall(db, c).db, StepCall(db, c).pc)
  {
    hide PreparePc, ServiceRequest, UpdateInput, ApplyUpdate, RecordToTask, ScheduledAtConstraint, Good, GoodRow,
      TaskToRecord, TypeText, StatusText, GoodInput;
    if c.Update? && c.upc.URead? && Owns(db, c.upc.text.id, c.upc.user) {
      ReadAndChangeGood(db.tasks[c.upc.text.id], c.upc.input);
    }
  }

  lemma OthersKeepOrigin(db: Db, c: Call, d: Call)
    requires KeyedRows(db) && KeyedCall(c) && KeepsOrigin(db, d) && !StaleSave(db, c, d)
    ensures KeepsOrigin(StepCall(db, c).db, d)
  {
    StepKeepsKeys(db, c);
    hide RecordToTask, TypeText;
    if d.Update? && d.upc.UWrite? {
      OnlySaveAddsRows(db, c, d.upc.updated.id);
      hide StepCall;
    }
  }

  lemma OnlySaveAddsRows(db: Db, c: Call, id: TaskId)
    ensures id in StepCall(db, c).db.tasks && id !in db.tasks ==>
      c.Create? && c.cpc.CSave? && c.cpc.prepared.task.id == id
  {
    hide PreparePc, ServiceRequest, UpdateInput, ApplyUpdate, RecordToTask, ScheduledAtConstraint, TaskToRecord;
  }

  lemma OriginsStep(s: System, a: Action)
    requires GoodSystem(s) && Origins(s) && NoStaleSave(s)
    ensures Origins(Apply(s, a)) && !Spoils(s, a)
  {
    var s' := Apply(s, a);
    if a.Advance? && a.call in s.calls {
      var c := s.calls[a.call];
      StepReadsOrigin(s.db, c);
      OriginSuits(s.db, c);
      hide StepCall, KeyedRows, KeyedCall, GoodCall, GoodRows, KeepsOrigin, StaleSave, SpoilingWrite;
      forall j | j in s'.calls
        ensures KeepsOrigin(s'.db, s'.calls[j])
      {
        if j != a.call {
          OthersKeepOrigin(s.db, c, s.calls[j]);
        }
      }
    }
  }

  lemma OriginSuits(db: Db, c: Call)
    requires GoodCall(c) && KeepsOrigin(db, c)
    ensures !SpoilingWrite(db, c)
  {
    if c.Update? && c.upc.UWrite? {
      TypeTextInverse(c.upc.updated.taskType);
      TypeTextInverse(Scheduled);
      hide NewTask, Color.IsNormal, TypeText;
    }
  }

  lemma {:induction false} OriginsUpTo(actions: seq<Action>, n: nat)
    requires n <= |actions| && NeverStale(actions)
    ensures GoodSystem(At(actions, n)) && Origins(At(actions, n))
    ensures forall k | 0 <= k < n :: !Spoils(At(actions, k), actions[k])
  {
    if n > 0 {
      OriginsUpTo(actions, n - 1);
      AtNext(actions, n - 1);
      GoodStep(At(actions, n - 1), actions[n - 1]);
      OriginsStep(At(actions, n - 1), actions[n - 1]);
    }
  }

  /** When no id comes back under an update that holds its old row, no write spoils a row. */
  lemma NeverStaleNeverSpoils(actions: seq<Action>)
    requires NeverStale(actions)
    ensures NeverSpoils(actions)
  {
    OriginsUpTo(actions, |actions|);
  }

  /** Ids are not reused: a create about to save an id without a row never follows an earlier save of it. */
  ghost predicate NoReuse(s: System) {
    forall i | i in s.calls :: NewHere(s, s.calls[i])
  }

  predicate NewHere(s: System, c: Call) {
    c.Create? && c.cpc.CSave? && c.cpc.prepared.task.id !in s.db.tasks ==>
      Count(s.log, Saved(c.cpc.prepared.task.id)) == 0
  }

  ghost predicate NeverReuses(actions: seq<Action>) {
    forall n | 0 <= n <= |actions| :: NoReuse(At(actions, n))
  }

  /** An update that holds a row read one that had been saved. */
  predicate ReadWasSaved(s: System, c: Call) {
    c.Update? && c.upc.UWrite? ==> Count(s.log, Saved(c.upc.updated.id)) >= 1
  }

  ghost predicate ReadsWereSaved(s: System) {
    forall i | i in s.calls :: ReadWasSaved(s, s.calls[i])
  }

  lemma ReadWasSavedStep(s: System, a: Action)
    requires Keyed(s) && Ledger(s) && ReadsWereSaved(s)
    ensures ReadsWereSaved(Apply(s, a))
  {
    var s' := Apply(s, a);
    if a.Advance? && a.call in s.calls {
      var c := s.calls[a.call];
      var m := StepCall(s.db, c);
      assert m.pc.Update? && m.pc.upc.UWrite? ==> Count(s.log, Saved(m.pc.upc.updated.id)) >= 1 by {
        WriteFollowsRead(s.db, c);
        hide StepCall, Count;
        if m.pc.Update? && m.pc.upc.UWrite? {
          assert Balanced(s, m.pc.upc.updated.id);
        }
      }
      hide StepCall, Ledger, Keyed, Count;
      forall i | i in s'.calls
        ensures ReadWasSaved(s', s'.calls[i])
      {
        assert i != a.call ==> ReadWasSaved(s, s.calls[i]);
        if s'.calls[i].Update? && s'.calls[i].upc.UWrite? {
          LogGrows(s.log, m.event, Saved(s'.calls[i].upc.updated.id));
        }
      }
    }
  }

  lemma LogGrows(log: seq<Event>, e: Option<Event>, f: Event)
    ensures Count(log + if e.Some? then [e.value] else [], f) == Count(log, f) + if e == Some(f) then 1 else 0
  {
    if e.Some? {
      CountAppended(log, e.value, f);
    } else {
      assert log + [] == log;
    }
  }

  lemma WriteFollowsRead(db: Db, c: Call)
    requires KeyedRows(db)
    ensures var m := StepCall(db, c);
      m.pc.Update? && m.pc.upc.UWrite? ==> c.Update? && (m.pc.upc.updated.id in db.tasks || m.pc == c)
  {
    hide PreparePc, ServiceRequest, UpdateInput, ApplyUpdate, RecordToTask, ScheduledAtConstraint;
    if c.Update? && c.upc.URead? {
      var pc := c.upc;
      var found := Get(db, pc.text.id, pc.user, c.updateEnv.readFails);
      if found.Ok? {
        TaskOutcomes.ReadKeepsKey(db.tasks[pc.text.id], found.value, pc.input);
      }
    }
  }

  lemma {:induction false} ReadsWereSavedUpTo(actions: seq<Action>, n: nat)
    requires n <= |actions|
    ensures Keyed(At(actions, n)) && Ledger(At(actions, n)) && ReadsWereSaved(At(actions, n))
  {
    if n > 0 {
      ReadsWereSavedUpTo(actions, n - 1);
      AtNext(actions, n - 1);
      LedgerStep(At(actions, n - 1), actions[n - 1]);
      ReadWasSavedStep(At(actions, n - 1), actions[n - 1]);
    }
  }

  /** Ids that are not reused cannot come back under a stale read. */
  lemma NoReuseIsNeverStale(actions: seq<Action>)
    requires NeverReuses(actions)
    ensures NeverStale(actions)
  {
    forall n | 0 <= n <= |actions|
      ensures NoStaleSave(At(actions, n))
    {
      ReadsWereSavedUpTo(actions, n);
      NoReuseHere(At(actions, n));
    }
  }

  lemma NoReuseHere(s: System)
    requires NoReuse(s) && ReadsWereSaved(s)
    ensures NoStaleSave(s)
  {
    hide Count;
    forall i, j | i in s.calls && j in s.calls
      ensures !StaleSave(s.db, s.calls[i], s.calls[j])
    {
      assert NewHere(s, s.calls[i]) && ReadWasSaved(s, s.calls[j]);
    }
  }

  // ------------------------------------------------------------ from the requests alone

  function ActionId(a: Action): Option<TaskId> {
    if a.StartCreate? then AskedId(a.req, a.createEnv) else None
  }

  /** No two requests to create are for one id. */
  predicate DistinctIds(actions: seq<Action>) {
    forall i, j | 0 <= i < j < |actions| ::
      ActionId(actions[i]).Some? ==> ActionId(actions[j]) != ActionId(actions[i])
  }

  /** The id a create may still save. */
  function WillSave(c: Call): Option<TaskId> {
    if !c.Create? then None
    else match c.cpc
      case CBegin => AskedId(c.req, c.createEnv)
      case CExists(_, text) => Some(text.id)
      case CSave(p) => Some(p.task.id)
      case _ => None
  }

  predicate SavesFresh(s: System, c: Call) {
    WillSave(c).Some? ==> Count(s.log, Saved(WillSave(c).value)) == 0
  }

  predicate SaveApart(c: Call, d: Call) {
    WillSave(c).Some? ==> WillSave(c) != WillSave(d)
  }

  /** What a create may still save, nothing else saves or has saved. */
  ghost predicate FreshSystem(s: System) {
    && (forall i | i in s.calls :: SavesFresh(s, s.calls[i]))
    && (forall i, j | i in s.calls && j in s.calls && i != j :: SaveApart(s.calls[i], s.calls[j]))
  }

  /** Nothing saves the id or has saved it. */
  ghost predicate Unused(s: System, id: TaskId) {
    Count(s.log, Saved(id)) == 0 && forall i | i in s.calls :: WillSave(s.calls[i]) != Some(id)
  }

  lemma WillSaveStep(db: Db, c: Call)
    ensures var m := StepCall(db, c);
      && (WillSave(m.pc) == None || WillSave(m.pc) == WillSave(c))
      && (m.event.Some? && m.event.value.Saved? ==> WillSave(c) == Some(m.event.value.id) && WillSave(m.pc) == None)
  {
    hide Prepare, ServiceRequest, UpdateInput, ApplyUpdate, RecordToTask, ScheduledAtConstraint, TaskToRecord;
    if c.Create? && TypeFromProto(c.req.taskType).Some? {
      var taskType := TypeFromProto(c.req.taskType).value;
      if c.cpc.CBegin? && c.createEnv.session.Valid? && c.req.taskId.NoId? {
        PreparedId(c.req, c.createEnv, taskType, c.createEnv.session.user, None);
      } else if c.cpc.CExists? {
        PreparedId(c.req, c.createEnv, taskType, c.cpc.user, Some(c.cpc.text.id));
      }
    }
  }

  lemma PreparedId(req: CreateRequest, env: CreateEnv, taskType: TaskType, user: UserId, id: Option<TaskId>)
    ensures var r := Prepare(req, env, taskType, user, id);
      r.Ok? ==> Some(r.value.task.id) == if id.Some? then id else env.newId
  {
    hide Reminders.ReminderTimes, GoTime.TruncateMicro, Color.NewColor, Color.Validate, DeviceRequests, WithToken;
  }

  lemma FreshAdvance(s: System, i: nat)
    requires FreshSystem(s) && i in s.calls
    ensures FreshSystem(Apply(s, Advance(i)))
    ensures forall id: TaskId | Unused(s, id) :: Unused(Apply(s, Advance(i)), id)
  {
    var (s', c, m) := (Apply(s, Advance(i)), s.calls[i], StepCall(s.db, s.calls[i]));
    WillSaveStep(s.db, c);
    hide StepCall, WillSave, Count;
    forall id {
      LogGrows(s.log, m.event, Saved(id));
    }
    forall j | j in s'.calls
      ensures SavesFresh(s', s'.calls[j])
      ensures j != i ==> SaveApart(s'.calls[i], s'.calls[j]) && SaveApart(s'.calls[j], s'.calls[i])
    {
      assert SavesFresh(s, s.calls[j]);
      assert j != i ==> SaveApart(c, s.calls[j]) && SaveApart(s.calls[j], c);
    }
    forall id: TaskId | Unused(s, id)
      ensures Unused(s', id)
    {
      assert WillSave(c) != Some(id);
    }
  }

  lemma FreshStep(s: System, a: Action)
    requires FreshSystem(s) && (ActionId(a).Some? ==> Unused(s, ActionId(a).value))
    ensures FreshSystem(Apply(s, a))
    ensures forall id: TaskId | Unused(s, id) && ActionId(a) != Some(id) :: Unused(Apply(s, a), id)
  {
    if a.Advance? && a.call in s.calls {
      FreshAdvance(s, a.call);
    } else if a.StartCreate? && a.call !in s.calls {
      assert WillSave(Create(a.req, a.createEnv, CBegin)) == ActionId(a);
      hide Count;
    }
  }

  lemma {:induction false} FreshUpTo(actions: seq<Action>, n: nat)
    requires n <= |actions| && DistinctIds(actions)
    ensures FreshSystem(At(actions, n))
    ensures forall j | n <= j < |actions| && ActionId(actions[j]).Some? ::
      Unused(At(actions, n), ActionId(actions[j]).value)
  {
    if n > 0 {
      FreshUpTo(actions, n - 1);
      AtNext(actions, n - 1);
      hide FreshSystem, Unused, At, ActionId;
      FreshStep(At(actions, n - 1), actions[n - 1]);
    }
  }

  /** Creates for distinct ids never reuse one. */
  lemma DistinctIdsNeverReuse(actions: seq<Action>)
    requires DistinctIds(actions)
    ensures NeverReuses(actions)
  {
    forall n | 0 <= n <= |actions|
      ensures NoReuse(At(actions, n))
    {
      FreshUpTo(actions, n);
      FreshIsNoReuse(At(actions, n));
    }
  }

  lemma FreshIsNoReuse(s: System)
    requires FreshSystem(s)
    ensures NoReuse(s)
  {
    forall i | i in s.calls
      ensures NewHere(s, s.calls[i])
    {
      assert SavesFresh(s, s.calls[i]);
    }
  }

  /** So it is enough to look at the requests: when no two creates are for one id, then in every
      interleaving with failures and crashes no write spoils a row, and all rows stay good. */
  lemma DistinctIdsKeepRowsGood(actions: seq<Action>)
    requires DistinctIds(actions)
    ensures NeverSpoils(actions)
    ensures GoodRows(Run(INITIAL, actions).db)
  {
    DistinctIdsNeverReuse(actions);
    NoReuseIsNeverStale(actions);
    NeverStaleNeverSpoils(actions);
    GoodUpTo(actions, |actions|);
    AtEnd(actions);
  }
}
