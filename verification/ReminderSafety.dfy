/** Queued reminders and the rows they are about.

    A registration that is the last message for its task and user, with the row gone, is dangling: the
    user will be reminded of a task that no longer exists. */
module ReminderSafety {
  import opened Wrappers
  import opened TaskDomain
  import opened TaskRecords
  import opened TaskTables
  import UpdateMask
  import opened TaskHandlers
  import opened TaskMachine
  import opened RowValidity
  import opened FreshIds

  function TextOf(m: Message): IdText {
    match m case Register(r) => r.task case Cancel(task, _) => task
  }

  function UserOf(m: Message): UserId {
    match m case Register(r) => r.user case Cancel(_, user) => user
  }

  /** The last message about the task `id` and the user is a registration. */
  predicate Pending(queue: seq<Message>, id: TaskId, user: UserId) {
    if queue == [] then false
    else
      var m := queue[|queue| - 1];
      if TextOf(m).id == id && UserOf(m) == user then m.Register? else Pending(queue[..|queue| - 1], id, user)
  }

  lemma PendingAppended(queue: seq<Message>, m: Message, id: TaskId, user: UserId)
    ensures Pending(queue + [m], id, user) <==>
      if TextOf(m).id == id && UserOf(m) == user then m.Register? else Pending(queue, id, user)
  {
    assert (queue + [m])[..|queue + [m]| - 1] == queue;
  }

  /** A create that has saved its row and may still register its reminder or roll back. */
  predicate Creating(c: Call, id: TaskId, user: UserId) {
    && c.Create? && (c.cpc.CRegister? || c.cpc.CRollback?)
    && c.cpc.prepared.task.id == id && c.cpc.prepared.task.userId == user
  }

  /** A delete or a completion that has queued its cancellation and is about to remove the row. */
  predicate Removing(c: Call, id: TaskId, user: UserId) {
    || (c.Delete? && c.dpc.DDelete? && c.dpc.text.id == id && c.dpc.user == user)
    || (c.Update? && c.upc.UArchive? && c.upc.text.id == id && c.upc.user == user)
  }

  /** No create of a task overlaps its owner's removal of the same task in these windows. */
  ghost predicate NoRace(s: System) {
    forall i, j | i in s.calls && j in s.calls :: !Races(s.calls[i], s.calls[j])
  }

  predicate Races(c: Call, d: Call) {
    c.Create? && (c.cpc.CRegister? || c.cpc.CRollback?)
        && Removing(d, c.cpc.prepared.task.id, c.cpc.prepared.task.userId)
  }

  ghost predicate NeverRaces(actions: seq<Action>) {
    forall n | 0 <= n <= |actions| :: NoRace(At(actions, n))
  }

  /** What each call under way knows about its row and the queue. */
  ghost predicate Informed(db: Db, c: Call) {
    && (c.Create? && (c.cpc.CRegister? || c.cpc.CRollback?) ==>
          var t := c.cpc.prepared.task;
          Owns(db, t.id, t.userId) && !Pending(db.queue, t.id, t.userId))
    && (c.Delete? && c.dpc.DDelete? ==> !Pending(db.queue, c.dpc.text.id, c.dpc.user))
    && (c.Update? && c.upc.UArchive? ==> !Pending(db.queue, c.upc.text.id, c.upc.user))
  }

  ghost predicate NoDangling(db: Db) {
    forall id, user | Pending(db.queue, id, user) :: Owns(db, id, user)
  }

  /** Two creates under way are about different tasks. */
  predicate Apart(c: Call, d: Call) {
    c.Create? && (c.cpc.CRegister? || c.cpc.CRollback?) && d.Create? && (d.cpc.CRegister? || d.cpc.CRollback?) ==>
      c.cpc.prepared.task.id != d.cpc.prepared.task.id
  }

  ghost predicate Safe(s: System) {
    && Keyed(s) && NoDangling(s.db)
    && (forall i | i in s.calls :: Informed(s.db, s.calls[i]))
    && (forall i, j | i in s.calls && j in s.calls && i != j :: Apart(s.calls[i], s.calls[j]))
  }

  /** How a step changes owners and the queue, by kind. */
  datatype Effect =
    | Nothing
    | Saves(id: TaskId, owner: UserId)
    | Removes(id: TaskId, owner: UserId)
    | Sends(message: Message)

  ghost predicate HasEffect(db: Db, db': Db, e: Effect) {
    match e
    case Nothing => db'.queue == db.queue && SameOwners(db, db')
    case Saves(id, owner) =>
      && id !in db.tasks && Owns(db', id, owner) && db'.queue == db.queue
      && (forall x, u | x != id :: Owns(db', x, u) <==> Owns(db, x, u))
    case Removes(id, owner) =>
      && Owns(db, id, owner) && id !in db'.tasks && db'.queue == db.queue
      && (forall x, u | x != id :: Owns(db', x, u) <==> Owns(db, x, u))
    case Sends(m) => db'.queue == db.queue + [m] && db'.tasks == db.tasks
  }

  ghost predicate SameOwners(db: Db, db': Db) {
    forall x, u :: Owns(db', x, u) <==> Owns(db, x, u)
  }

  /** The effect of a step, and what it implies for the call that takes it. */
  ghost predicate Justified(c: Call, c': Call, e: Effect) {
    match e
    case Nothing =>
      && !(c'.Delete? && c'.dpc.DDelete?) && !(c'.Update? && c'.upc.UArchive?)
      && !(c'.Create? && c'.cpc.CRegister?)
      && (c'.Create? && c'.cpc.CRollback? ==> c.Create? && c.cpc == CRegister(c'.cpc.prepared))
    case Saves(id, owner) =>
      && c'.Create? && (c'.cpc.CRegister? || c'.cpc.CActivate?)
      && c'.cpc.prepared.task.id == id && c'.cpc.prepared.task.userId == owner
    case Removes(id, owner) =>
      && Finished(c')
      && (|| Removing(c, id, owner)
          || (c.Create? && c.cpc.CRollback? && c.cpc.prepared.task.id == id && c.cpc.prepared.task.userId == owner))
    case Sends(Register(r)) =>
      && c'.Create? && c'.cpc.CActivate? && c.Create? && c.cpc == CRegister(c'.cpc.prepared)
      && c.cpc.prepared.remind == Some(r)
      && r.task.id == c.cpc.prepared.task.id && r.user == c.cpc.prepared.task.userId
    case Sends(Cancel(text, user)) =>
      || (c'.Delete? && c'.dpc == DDelete(user, text))
      || (c'.Update? && c'.upc.UArchive? && c'.upc.text == text && c'.upc.user == user)
  }

  lemma StepEffect(db: Db, c: Call) returns (e: Effect)
    requires KeyedRows(db) && KeyedCall(c)
    requires !Finished(c)
    ensures var m := StepCall(db, c); HasEffect(db, m.db, e) && Justified(c, m.pc, e)
  {
    match c {
      case Create(req, env, pc) => e := CreateEffect(db, req, env, pc);
      case Update(taskId, change, env, pc) => e := UpdateEffect(db, taskId, change, env, pc);
      case Delete(taskId, env, pc) => e := DeleteEffect(db, taskId, env, pc);
    }
  }

  lemma CreateEffect(db: Db, req: CreateRequest, env: CreateEnv, pc: CreatePc) returns (e: Effect)
    requires KeyedCall(Create(req, env, pc)) && !pc.CDone?
    ensures var m := StepCall(db, Create(req, env, pc));
      HasEffect(db, m.db, e) && Justified(Create(req, env, pc), m.pc, e)
  {
    hide Prepare;
    e := Nothing;
    match pc {
      case CSave(p) =>
        if !env.saveFails && p.task.id !in db.tasks { e := Saves(p.task.id, p.task.userId); }
      case CRegister(p) =>
        if p.remind.Some? && !env.registerFails { e := Sends(Register(p.remind.value)); }
      case CRollback(p) =>
        if !env.rollbackFails && Owns(db, p.task.id, p.task.userId) { e := Removes(p.task.id, p.task.userId); }
      case _ =>
    }
  }

  lemma UpdateEffect(db: Db, taskId: IdArg, change: UpdateMask.ProtoUpdate, env: UpdateEnv, pc: UpdatePc)
      returns (e: Effect)
    requires KeyedCall(Update(taskId, change, env, pc)) && !pc.UDone?
    ensures var m := StepCall(db, Update(taskId, change, env, pc));
      HasEffect(db, m.db, e) && Justified(Update(taskId, change, env, pc), m.pc, e)
  {
    hide UpdateMask.ServiceRequest, UpdateMask.UpdateInput, ApplyUpdate, RecordToTask,
        UpdateMask.ScheduledAtConstraint, StatusText;
    e := Nothing;
    match pc {
      case UCancel(user, text, updated) =>
        if !env.cancelFails { e := Sends(Cancel(text, user)); }
      case UArchive(user, text, updated) =>
        if !env.archiveFails && updated.id !in db.completed && Owns(db, text.id, user) { e := Removes(text.id, user); }
      case _ =>
    }
  }

  lemma DeleteEffect(db: Db, taskId: IdArg, env: DeleteEnv, pc: DeletePc) returns (e: Effect)
    requires !pc.DDone?
    ensures var m := StepCall(db, Delete(taskId, env, pc));
      HasEffect(db, m.db, e) && Justified(Delete(taskId, env, pc), m.pc, e)
  {
    e := Nothing;
    match pc {
      case DCancel(user, text) =>
        if !env.cancelFails { e := Sends(Cancel(text, user)); }
      case DDelete(user, text) =>
        if !env.deleteFails && Owns(db, text.id, user) { e := Removes(text.id, user); }
      case _ =>
    }
  }

  // ------------------------------------------------------------ exactly when a reminder dangles

  /** The row is not the user's any more when the registration is sent, or a registration
      is still the last message when the row goes. */
  predicate Breaks(db: Db, e: Effect) {
    match e
    case Sends(Register(r)) => !Owns(db, r.task.id, r.user)
    case Removes(id, owner) => Pending(db.queue, id, owner)
    case _ => false
  }

  /** The same, read off the call before it steps. */
  predicate BreakingCall(db: Db, c: Call) {
    match c
    case Create(_, env, CRegister(p)) => p.remind.Some? && !env.registerFails && !Owns(db, p.task.id, p.task.userId)
    case Create(_, env, CRollback(p)) => !env.rollbackFails && BreakingRemoval(db, p.task.id, p.task.userId)
    case Update(_, _, env, UArchive(user, text, u)) =>
      !env.archiveFails && u.id !in db.completed && BreakingRemoval(db, text.id, user)
    case Delete(_, env, DDelete(user, text)) => !env.deleteFails && BreakingRemoval(db, text.id, user)
    case _ => false
  }

  predicate BreakingRemoval(db: Db, id: TaskId, user: UserId) {
    Owns(db, id, user) && Pending(db.queue, id, user)
  }

  predicate BreakingAction(s: System, a: Action) {
    a.Advance? && a.call in s.calls && BreakingCall(s.db, s.calls[a.call])
  }

  predicate NeverBreaks(actions: seq<Action>) {
    forall n | 0 <= n < |actions| :: !BreakingAction(At(actions, n), actions[n])
  }

  /** Of the changes a step can make, exactly the breaking ones leave a dangling reminder. */
  lemma EffectDangles(db: Db, db': Db, e: Effect)
    requires NoDangling(db) && HasEffect(db, db', e)
    ensures NoDangling(db') <==> !Breaks(db, e)
  {
    match e {
      case Nothing =>
      case Saves(_, _) =>
      case Sends(m) =>
        forall id, user {
          PendingAppended(db.queue, m, id, user);
        }
        hide Pending;
        assert m.Register? ==> Pending(db'.queue, m.request.task.id, m.request.user);
      case Removes(id, owner) =>
        hide Pending;
        assert !Owns(db', id, owner);
    }
  }

  lemma StepDangles(db: Db, c: Call)
    requires KeyedRows(db) && KeyedCall(c) && NoDangling(db)
    ensures NoDangling(StepCall(db, c).db) <==> !BreakingCall(db, c)
  {
    if Finished(c) {
      FinishedStays(db, c);
    } else {
      var e := StepEffect(db, c);
      EffectDangles(db, StepCall(db, c).db, e);
      EffectOfCall(db, c, e);
    }
  }

  lemma EffectOfCall(db: Db, c: Call, e: Effect)
    requires KeyedCall(c) && !Finished(c)
    requires HasEffect(db, StepCall(db, c).db, e) && Justified(c, StepCall(db, c).pc, e)
    ensures Breaks(db, e) <==> BreakingCall(db, c)
  {
    hide Pending, Prepare, UpdateMask.ServiceRequest, UpdateMask.UpdateInput, ApplyUpdate, RecordToTask,
        UpdateMask.ScheduledAtConstraint;
  }

  lemma DanglingStep(s: System, a: Action)
    requires Keyed(s) && NoDangling(s.db)
    ensures Keyed(Apply(s, a)) && (NoDangling(Apply(s, a).db) <==> !BreakingAction(s, a))
  {
    if a.Advance? && a.call in s.calls {
      StepKeepsKeys(s.db, s.calls[a.call]);
      StepDangles(s.db, s.calls[a.call]);
    }
    hide StepCall, KeyedCall, KeyedRows, NoDangling, BreakingCall;
  }

  lemma {:induction false} NoDanglingUpTo(actions: seq<Action>, n: nat)
    requires n <= |actions| && forall k | 0 <= k < n :: !BreakingAction(At(actions, k), actions[k])
    ensures Keyed(At(actions, n)) && NoDangling(At(actions, n).db)
  {
    if n > 0 {
      NoDanglingUpTo(actions, n - 1);
      AtNext(actions, n - 1);
      DanglingStep(At(actions, n - 1), actions[n - 1]);
    }
  }

  lemma {:induction false} NoDanglingSoNotBroken(actions: seq<Action>, n: nat)
    requires n <= |actions| && forall k | 0 <= k <= n :: NoDangling(At(actions, k).db)
    ensures forall k | 0 <= k < n :: !BreakingAction(At(actions, k), actions[k])
  {
    hide At, Apply, NoDangling, BreakingAction, Keyed;
    if n > 0 {
      NoDanglingSoNotBroken(actions, n - 1);
      NoDanglingUpTo(actions, n - 1);
      AtNext(actions, n - 1);
      DanglingStep(At(actions, n - 1), actions[n - 1]);
    }
  }

  /** Exactly when reminders are safe: in every interleaved run with failures and crashes, no reminder dangles after
      any step if and only if no step registers a reminder for a row that is not the user's any more or removes a
      row whose registration is still the last message. */
  lemma DanglesExactly(actions: seq<Action>)
    ensures (forall n | 0 <= n <= |actions| :: NoDangling(At(actions, n).db)) <==> NeverBreaks(actions)
  {
    hide At, NoDangling, BreakingAction;
    if NeverBreaks(actions) {
      forall n | 0 <= n <= |actions|
        ensures NoDangling(At(actions, n).db)
      {
        NoDanglingUpTo(actions, n);
      }
    }
    if forall n | 0 <= n <= |actions| :: NoDangling(At(actions, n).db) {
      NoDanglingSoNotBroken(actions, |actions|);
    }
  }

  /** In such runs a task whose last message is a registration still has its user's row. */
  lemma NoDanglingReminder(actions: seq<Action>, id: TaskId, user: UserId)
    requires NeverBreaks(actions)
    requires Pending(Run(INITIAL, actions).db.queue, id, user)
    ensures Owns(Run(INITIAL, actions).db, id, user)
  {
    NoDanglingUpTo(actions, |actions|);
    AtEnd(actions);
  }

  // ------------------------------------------------------------ runs that never break

  /** What a call knows rules out that its step breaks. */
  lemma InformedNeverBreaks(db: Db, c: Call)
    requires Informed(db, c)
    ensures !BreakingCall(db, c)
  {
    hide Pending;
  }

  lemma StepInforms(db: Db, db': Db, c: Call, c': Call, e: Effect)
    requires Informed(db, c) && NoDangling(db)
    requires HasEffect(db, db', e) && Justified(c, c', e)
    ensures Informed(db', c')
  {
    if e.Sends? {
      forall id, user {
        PendingAppended(db.queue, e.message, id, user);
      }
    }
    hide Pending;
  }

  /** The calls that did not step keep what they know. */
  lemma OthersStayInformed(db: Db, db': Db, c: Call, c': Call, d: Call, e: Effect)
    requires Informed(db, d) && NoDangling(db)
    requires HasEffect(db, db', e) && Justified(c, c', e)
    requires Apart(c, d) && !Races(c, d) && !Races(d, c)
    ensures Informed(db', d)
  {
    if e.Sends? {
      forall id, user {
        PendingAppended(db.queue, e.message, id, user);
      }
    }
    hide Pending;
  }

  lemma StaysApart(db: Db, c: Call, c': Call, d: Call, db': Db, e: Effect)
    requires Apart(c, d) && Informed(db, d)
    requires HasEffect(db, db', e) && Justified(c, c', e)
    ensures Apart(c', d) && Apart(d, c')
  {
  }

  lemma SafeStep(s: System, a: Action)
    requires Safe(s) && NoRace(s)
    ensures Safe(Apply(s, a)) && !BreakingAction(s, a)
  {
    var s' := Apply(s, a);
    DanglingStep(s, a);
    if a.Advance? && a.call in s.calls && !Finished(s.calls[a.call]) {
      var c := s.calls[a.call];
      var m := StepCall(s.db, c);
      InformedNeverBreaks(s.db, c);
      var e := StepEffect(s.db, c);
      hide StepCall, KeyedCall, KeyedRows, HasEffect, Justified, Informed, Apart, NoDangling, Races, BreakingCall;
      StepInforms(s.db, s'.db, c, m.pc, e);
      forall j | j in s'.calls
        ensures Informed(s'.db, s'.calls[j])
        ensures j != a.call ==> Apart(m.pc, s'.calls[j]) && Apart(s'.calls[j], m.pc)
      {
        if j != a.call {
          OthersStayInformed(s.db, s'.db, c, m.pc, s.calls[j], e);
          StaysApart(s.db, c, m.pc, s.calls[j], s'.db, e);
        }
      }
    } else if a.Advance? && a.call in s.calls {
      FinishedStays(s.db, s.calls[a.call]);
      assert s'.calls == s.calls && s'.db == s.db;
    }
  }

  lemma FinishedStays(db: Db, c: Call)
    requires Finished(c)
    ensures StepCall(db, c) == Move(db, c, None)
  {
  }

  lemma {:induction false} SafeUpTo(actions: seq<Action>, n: nat)
    requires n <= |actions| && NeverRaces(actions)
    ensures Safe(At(actions, n))
    ensures forall k | 0 <= k < n :: !BreakingAction(At(actions, k), actions[k])
  {
    if n > 0 {
      SafeUpTo(actions, n - 1);
      AtNext(actions, n - 1);
      SafeStep(At(actions, n - 1), actions[n - 1]);
    }
  }

  /** It is enough that no create of a task overlaps a removal of it by its owner, between
      the save and the registration or rollback of the one and the cancellation and removal of the other. */
  lemma NeverRacesNeverBreaks(actions: seq<Action>)
    requires NeverRaces(actions)
    ensures NeverBreaks(actions)
  {
    SafeUpTo(actions, |actions|);
  }

  predicate Starts(a: Action) {
    a.StartCreate? || a.StartUpdate? || a.StartDelete?
  }

  /** Calls do not overlap: one starts only when every earlier one has finished or crashed. */
  ghost predicate Serial(actions: seq<Action>) {
    forall n | 0 <= n < |actions| && Starts(actions[n]) :: AllFinished(At(actions, n))
  }

  ghost predicate AllFinished(s: System) {
    forall i | i in s.calls :: Finished(s.calls[i])
  }

  ghost predicate AtMostOneOpen(s: System) {
    forall i, j | i in s.calls && j in s.calls && i != j :: Finished(s.calls[i]) || Finished(s.calls[j])
  }

  lemma OneOpenStep(s: System, a: Action)
    requires AtMostOneOpen(s) && (Starts(a) ==> AllFinished(s))
    ensures AtMostOneOpen(Apply(s, a))
  {
    if a.Advance? && a.call in s.calls && Finished(s.calls[a.call]) {
      FinishedStays(s.db, s.calls[a.call]);
    }
    hide StepCall;
  }

  lemma {:induction false} OneOpenUpTo(actions: seq<Action>, n: nat)
    requires n <= |actions| && Serial(actions)
    ensures AtMostOneOpen(At(actions, n))
  {
    if n > 0 {
      OneOpenUpTo(actions, n - 1);
      AtNext(actions, n - 1);
      OneOpenStep(At(actions, n - 1), actions[n - 1]);
    }
  }

  lemma OneOpenIsNoRace(s: System)
    requires AtMostOneOpen(s)
    ensures NoRace(s) && NoStaleSave(s)
  {
    forall i, j | i in s.calls && j in s.calls
      ensures !Races(s.calls[i], s.calls[j]) && !StaleSave(s.db, s.calls[i], s.calls[j])
    {
      assert i != j ==> Finished(s.calls[i]) || Finished(s.calls[j]);
    }
  }

  /** In every run of calls that do not overlap, each possibly failing or crashing at any step: after
      every step no reminder dangles and every row is good. */
  lemma SerialRunsAreSafe(actions: seq<Action>, n: nat)
    requires Serial(actions) && n <= |actions|
    ensures NoDangling(At(actions, n).db) && GoodRows(At(actions, n).db)
  {
    forall k | 0 <= k <= |actions|
      ensures NoRace(At(actions, k)) && NoStaleSave(At(actions, k))
    {
      OneOpenUpTo(actions, k);
      OneOpenIsNoRace(At(actions, k));
    }
    hide At, NoRace, NoStaleSave, NoDangling, GoodRows, Serial;
    NeverRacesNeverBreaks(actions);
    NoDanglingUpTo(actions, n);
    NeverStaleNeverSpoils(actions);
    GoodUpTo(actions, n);
  }
}
