/** The text of the id in queued messages.

    A registration carries the canonical text of the id, a cancellation the text of the request. Whoever
    matches messages by text, not by the id it denotes, sees a cancellation only if the request was
    spelled canonically. */
module ReminderSpelling {
  import opened Wrappers
  import opened TaskDomain
  import opened TaskTables
  import UpdateMask
  import opened TaskHandlers
  import opened TaskOutcomes
  import opened TaskMachine
  import opened ReminderSafety

  /** The last message under exactly this text for the user is a registration. */
  predicate PendingText(queue: seq<Message>, text: IdText, user: UserId) {
    if queue == [] then false
    else
      var m := queue[|queue| - 1];
      if TextOf(m) == text && UserOf(m) == user then m.Register? else PendingText(queue[..|queue| - 1], text, user)
  }

  lemma PendingTextAppended(queue: seq<Message>, m: Message, text: IdText, user: UserId)
    ensures PendingText(queue + [m], text, user) <==>
      if TextOf(m) == text && UserOf(m) == user then m.Register? else PendingText(queue, text, user)
  {
    assert (queue + [m])[..|queue + [m]| - 1] == queue;
  }

  /** After a successful delete the reminder is still pending, by text, exactly when it was pending
      before and the request spelled the id in another way. */
  lemma DeleteByText(db: Db, taskId: IdArg, env: DeleteEnv)
    requires DeleteAlone(db, taskId, env, DBegin).1 == DDone(None)
    ensures taskId.GivenId? && env.session.Valid?
    ensures var (db', text) := (DeleteAlone(db, taskId, env, DBegin).0, IdText(taskId.text.id, true));
      PendingText(db'.queue, text, env.session.user) <==>
        !taskId.text.canonical && PendingText(db.queue, text, env.session.user)
  {
    DeleteOutcome(db, taskId, env);
    PendingTextAppended(db.queue, Cancel(taskId.text, env.session.user), IdText(taskId.text.id, true),
        env.session.user);
    hide DeleteAlone, PendingText;
  }

  /** The same for a completion. */
  lemma CompletionByText(db: Db, taskId: IdArg, p: UpdateMask.ProtoUpdate, env: UpdateEnv)
    ensures var (db', pc) := UpdateAlone(db, taskId, p, env, UBegin);
      pc.UDone? && pc.result.Ok? && pc.result.value.status == Completed ==>
        && taskId.GivenId? && env.session.Valid?
        && var text := IdText(taskId.text.id, true);
        PendingText(db'.queue, text, env.session.user) <==>
          !taskId.text.canonical && PendingText(db.queue, text, env.session.user)
  {
    hide UpdateAlone, PendingText, UpdateMask.Updated;
    UpdateOutcome(db, taskId, p, env);
    if taskId.GivenId? && env.session.Valid? {
      PendingTextAppended(db.queue, Cancel(taskId.text, env.session.user), IdText(taskId.text.id, true),
          env.session.user);
    }
  }

  predicate CanonicalArg(a: IdArg) {
    a.GivenId? ==> a.text.canonical
  }

  /** Every update and delete request spells its id canonically. */
  predicate CanonicalRequests(actions: seq<Action>) {
    forall a | a in actions ::
      (a.StartUpdate? ==> CanonicalArg(a.taskId)) && (a.StartDelete? ==> CanonicalArg(a.taskId))
  }

  predicate CanonicalCall(c: Call) {
    match c
    case Create(_, _, pc) => true
    case Update(taskId, _, _, pc) =>
      && CanonicalArg(taskId)
      && (pc.URead? ==> pc.text.canonical) && (pc.UCancel? ==> pc.text.canonical)
          && (pc.UArchive? ==> pc.text.canonical)
    case Delete(taskId, _, pc) =>
      && CanonicalArg(taskId)
      && (pc.DCancel? ==> pc.text.canonical) && (pc.DDelete? ==> pc.text.canonical)
  }

  predicate AllCanonical(queue: seq<Message>) {
    forall m | m in queue :: TextOf(m).canonical
  }

  ghost predicate Canonical(s: System) {
    Keyed(s) && AllCanonical(s.db.queue) && forall i | i in s.calls :: CanonicalCall(s.calls[i])
  }

  lemma StepStaysCanonical(db: Db, c: Call)
    requires KeyedRows(db) && KeyedCall(c) && CanonicalCall(c) && AllCanonical(db.queue)
    ensures CanonicalCall(StepCall(db, c).pc) && AllCanonical(StepCall(db, c).db.queue)
  {
    hide Prepare, UpdateMask.ServiceRequest, UpdateMask.UpdateInput, ApplyUpdate, UpdateMask.ScheduledAtConstraint, Get;
    if !Finished(c) {
      var e := StepEffect(db, c);
      EffectStaysCanonical(db, StepCall(db, c).db, c, StepCall(db, c).pc, e);
    }
  }

  lemma EffectStaysCanonical(db: Db, db': Db, c: Call, c': Call, e: Effect)
    requires KeyedCall(c) && CanonicalCall(c) && CanonicalCall(c') && AllCanonical(db.queue)
    requires HasEffect(db, db', e) && Justified(c, c', e)
    requires e.Sends? && e.message.Register? ==>
        c.Create? && c.cpc.CRegister? && c.cpc.prepared.remind == Some(e.message.request)
    ensures AllCanonical(db'.queue)
  {
  }

  lemma {:induction false} CanonicalInvariant(s: System, actions: seq<Action>)
    requires Canonical(s) && CanonicalRequests(actions)
    ensures Canonical(Run(s, actions))
    decreases |actions|
  {
    if actions != [] {
      var a := actions[0];
      if a.Advance? && a.call in s.calls {
        StepKeepsKeys(s.db, s.calls[a.call]);
        StepStaysCanonical(s.db, s.calls[a.call]);
      }
      assert Canonical(Apply(s, a)) by {
        hide StepCall, KeyedRows;
      }
      CanonicalInvariant(Apply(s, a), actions[1..]);
    }
  }

  lemma {:induction false} CanonicalPending(queue: seq<Message>, id: TaskId, user: UserId)
    requires AllCanonical(queue)
    ensures PendingText(queue, IdText(id, true), user) <==> Pending(queue, id, user)
  {
    if queue != [] {
      CanonicalPending(queue[..|queue| - 1], id, user);
    }
  }

  /** With canonically spelled requests a run that never breaks leaves no reminder dangling by text either. */
  lemma NoDanglingText(actions: seq<Action>, id: TaskId, user: UserId)
    requires NeverBreaks(actions) && CanonicalRequests(actions)
    requires PendingText(Run(INITIAL, actions).db.queue, IdText(id, true), user)
    ensures Owns(Run(INITIAL, actions).db, id, user)
  {
    CanonicalInvariant(INITIAL, actions);
    CanonicalPending(Run(INITIAL, actions).db.queue, id, user);
    NoDanglingReminder(actions, id, user);
  }
}
