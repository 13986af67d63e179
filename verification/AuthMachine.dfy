/** Any number of logins interleaved, one statement at a time, each able to stop dead after any step,
    with logouts, the clock and the session store's evictions in between. The database isolates transactions as
    READ COMMITTED does: a statement sees the rows committed before it, and its own. */
module AuthMachine {
  import opened Wrappers
  import opened GoTime
  import opened Sessions
  import opened LoginFlow

  datatype Login = Login(request: LoginRequest, pc: LoginPc)

  /** `log` records the sessions opened and closed, in order. */
  datatype System = System(world: World, logins: map<nat, Login>, log: seq<Event>)

  const INITIAL := System(World(AuthDb({}, map[]), map[], 1), map[], [])

  datatype Action =
    | StartLogin(login: nat, request: LoginRequest)
    | Advance(login: nat)
    | Crash(login: nat)
    | LogOut(token: Token, fails: bool)
    | Evict(id: SessionId)
    | Clock(time: Instant)

  /** New user ids are fresh. */
  predicate Fresh(s: System, user: UserId) {
    user != NO_USER && user !in s.world.db.users && forall i | i in s.logins :: s.logins[i].request.newUser != user
  }

  predicate Holds(l: Login, key: Key) {
    l.pc == LCommit(true) && l.request.key == key
  }

  /** Another transaction has inserted the key and not ended yet. */
  predicate Taken(s: System, i: nat, key: Key) {
    exists j | j in s.logins :: j != i && Holds(s.logins[j], key)
  }

  function Move(s: System, i: nat): LoginMove
    requires i in s.logins
  {
    LoginStep(s.world, Taken(s, i, s.logins[i].request.key), s.logins[i].request, s.logins[i].pc)
  }

  /** A login that stops dead takes its transaction with it. */
  function Apply(s: System, a: Action): System {
    match a
    case StartLogin(i, request) =>
      if i in s.logins || !Fresh(s, request.newUser) then s
      else s.(logins := s.logins[i := Login(request, LLookup)])
    case Advance(i) =>
      if i !in s.logins then s
      else
        var m := Move(s, i);
        System(m.world, s.logins[i := s.logins[i].(pc := m.pc)], s.log + if m.event.Some? then [m.event.value] else [])
    case Crash(i) => s.(logins := s.logins - {i})
    case LogOut(token, fails) =>
      if fails || Claimed(token).Err? then s
      else
        var id := Claimed(token).value;
        s.(world := s.world.(sessions := s.world.sessions - {id}), log := s.log + [Closed(id)])
    case Evict(id) => s.(world := s.world.(sessions := s.world.sessions - {id}))
    case Clock(t) => if t <= 0 then s else s.(world := s.world.(clock := t))
  }

  function Run(s: System, actions: seq<Action>): System
    decreases |actions|
  {
    if actions == [] then s else Run(Apply(s, actions[0]), actions[1..])
  }

  // ------------------------------------------------------------ users and identities

  /** Every identity has its user, and every user an identity. */
  ghost predicate Linked(db: AuthDb) {
    && (forall k | k in db.identities :: CheckKey(k).None? && db.identities[k] in db.users)
    && (forall u | u in db.users :: exists k :: k in db.identities && db.identities[k] == u)
  }

  predicate Belongs(db: AuthDb, key: Key, user: UserId) {
    key in db.identities && db.identities[key] == user
  }

  /** Nothing of the login is committed at this point. */
  predicate Uncommitted(pc: LoginPc) {
    match pc
    case LNewSession(_) => false
    case LSaveSession(_) => false
    case LDone(_) => false
    case LFailed(e) => !AfterCommit(e)
    case _ => true
  }

  /** What a login knows at its current point. */
  predicate Sound(db: AuthDb, l: Login) {
    var key := l.request.key;
    && (Uncommitted(l.pc) ==> l.request.newUser !in db.users)
    && match l.pc
       case LLookup => true
       case LLoadUser(owner) => Belongs(db, key, owner)
       case LInsertUser => CheckKey(key).None?
       case LLockedLookup => CheckKey(key).None?
       case LInsertIdentity => CheckKey(key).None?
       case LRecheck => key in db.identities
       case LCommit(inserted) => inserted && CheckKey(key).None? && key !in db.identities
       case LNewSession(user) => Belongs(db, key, user)
       case LSaveSession(s) =>
         && Belongs(db, key, s.userId) && s.id == l.request.sessionId && Good(s)
         && s.expiresAt == s.createdAt + l.request.duration
       case LDone(user) => Belongs(db, key, user)
       case LFailed(e) => !e.UserNotFound? && !e.IdentityVanished? && (e.Conflict? ==> key in db.identities)
  }

  /** Two logins: different new users, and at most one of them holds the key. */
  predicate Apart(l: Login, k: Login) {
    l.request.newUser != k.request.newUser && !(Holds(l, l.request.key) && Holds(k, l.request.key))
  }

  ghost predicate Consistent(s: System) {
    && s.world.clock > 0
    && Linked(s.world.db)
    && (forall i | i in s.logins :: Sound(s.world.db, s.logins[i]))
    && (forall i, j | i in s.logins && j in s.logins && i != j :: Apart(s.logins[i], s.logins[j]))
  }

  /** Rows are only added. */
  predicate Extends(db: AuthDb, db': AuthDb) {
    db.users <= db'.users && forall k | k in db.identities :: Belongs(db', k, db.identities[k])
  }

  /** What one login's step does to the database, and what it knows after it. */
  lemma StepIsSound(w: World, taken: bool, l: Login)
    requires w.clock > 0 && Linked(w.db) && Sound(w.db, l)
    ensures var m := LoginStep(w, taken, l.request, l.pc);
      && m.world.clock == w.clock
      && Linked(m.world.db) && Sound(m.world.db, l.(pc := m.pc))
      && (m.world.db == w.db || (l.pc == LCommit(true) && m.world.db == Both(w.db, l.request)))
      && (m.pc == LCommit(true) && l.pc != LCommit(true) ==> !taken)
  {
    var m := LoginStep(w, taken, l.request, l.pc);
    if l.pc.LNewSession? {
      BuiltAsAsked(l.request.sessionId, l.pc.user, w.clock, w.clock + l.request.duration, w.clock);
    } else if m.world.db != w.db {
      assert m.world.db == Both(w.db, l.request);
      BothLinked(w.db, l.request);
    }
  }

  lemma BothLinked(db: AuthDb, l: LoginRequest)
    requires Linked(db) && CheckKey(l.key).None? && l.key !in db.identities
    ensures Linked(Both(db, l))
  {
    var db' := Both(db, l);
    forall u | u in db'.users
      ensures exists k :: k in db'.identities && db'.identities[k] == u
    {
      if u == l.newUser {
        assert db'.identities[l.key] == u;
      } else {
        var k :| k in db.identities && db.identities[k] == u;
        assert db'.identities[k] == u;
      }
    }
  }

  lemma OthersStaySound(db: AuthDb, c: Login, k: Login)
    requires Sound(db, c) && Sound(db, k) && Apart(c, k) && c.pc == LCommit(true)
    ensures Sound(Both(db, c.request), k)
  {
  }

  lemma ConsistentStep(s: System, a: Action)
    requires Consistent(s)
    ensures Consistent(Apply(s, a)) && Extends(s.world.db, Apply(s, a).world.db)
  {
    var s' := Apply(s, a);
    if a.Advance? && a.login in s.logins {
      var i := a.login;
      var c := s.logins[i];
      var taken := Taken(s, i, c.request.key);
      StepIsSound(s.world, taken, c);
      hide LoginStep, Linked, Sound;
      forall j | j in s'.logins
        ensures Sound(s'.world.db, s'.logins[j])
        ensures j != i ==> Apart(s'.logins[i], s'.logins[j]) && Apart(s'.logins[j], s'.logins[i])
      {
        if j != i {
          assert Apart(c, s.logins[j]) && Apart(s.logins[j], c);
          if s'.world.db != s.world.db {
            OthersStaySound(s.world.db, c, s.logins[j]);
          }
          assert Holds(s.logins[j], c.request.key) ==> taken;
        }
      }
      assert Extends(s.world.db, s'.world.db) by { BothExtends(s.world.db, c); }
    } else {
      hide Linked;
    }
  }

  lemma BothExtends(db: AuthDb, l: Login)
    ensures Extends(db, db)
    ensures Sound(db, l) && l.pc == LCommit(true) ==> Extends(db, Both(db, l.request))
  {
  }

  lemma {:induction false} ConsistentRun(s: System, actions: seq<Action>)
    requires Consistent(s)
    ensures Consistent(Run(s, actions)) && Extends(s.world.db, Run(s, actions).world.db)
    decreases |actions|
  {
    if actions != [] {
      ConsistentStep(s, actions[0]);
      hide Consistent;
      ConsistentRun(Apply(s, actions[0]), actions[1..]);
    }
  }

  lemma {:induction false} RunAppend(s: System, first: seq<Action>, more: seq<Action>)
    ensures Run(s, first + more) == Run(Run(s, first), more)
    decreases |first|
  {
    if first == [] {
      assert first + more == more;
    } else {
      assert (first + more)[0] == first[0] && (first + more)[1..] == first[1..] + more;
      RunAppend(Apply(s, first[0]), first[1..], more);
    }
  }

  /** No orphans, in every interleaving: every committed identity points to a committed user, and every
      committed user owns an identity. */
  lemma NoOrphans(actions: seq<Action>)
    ensures var db := Run(INITIAL, actions).world.db;
      && (forall k | k in db.identities :: db.identities[k] in db.users)
      && (forall u | u in db.users :: exists k :: k in db.identities && db.identities[k] == u)
  {
    ConsistentRun(INITIAL, actions);
  }

  /** Whatever else happens after some point, the identities committed by then keep their users. */
  lemma IdentitiesWrittenOnce(actions: seq<Action>, more: seq<Action>, key: Key)
    ensures var (db, db') := (Run(INITIAL, actions).world.db, Run(INITIAL, actions + more).world.db);
      key in db.identities ==> key in db'.identities && db'.identities[key] == db.identities[key]
  {
    ConsistentRun(INITIAL, actions);
    RunAppend(INITIAL, actions, more);
    ConsistentRun(Run(INITIAL, actions), more);
  }

  /** A login that reports a conflict, or whose transaction failed, left no row behind: its new user
      does not exist and owns nothing. A conflict further means that the key belongs to somebody. */
  lemma FailedTransactionLeavesNothing(actions: seq<Action>, i: nat)
    requires var s := Run(INITIAL, actions);
      i in s.logins && s.logins[i].pc in {LFailed(Conflict), LFailed(TransactionFailed)}
    ensures var s := Run(INITIAL, actions);
      var l := s.logins[i].request;
      && l.newUser !in s.world.db.users
      && (forall k | k in s.world.db.identities :: s.world.db.identities[k] != l.newUser)
      && (s.logins[i].pc == LFailed(Conflict) ==> l.key in s.world.db.identities)
  {
    ConsistentRun(INITIAL, actions);
    var s := Run(INITIAL, actions);
    assert Sound(s.world.db, s.logins[i]);
  }

  /** The two errors that would mean a broken link never happen: a known identity always finds its user,
      and the row that made an insert do nothing is there when it is looked up again. */
  lemma LinksAreFound(actions: seq<Action>, i: nat)
    requires i in Run(INITIAL, actions).logins
    ensures Run(INITIAL, actions).logins[i].pc !in {LFailed(UserNotFound), LFailed(IdentityVanished)}
  {
    ConsistentRun(INITIAL, actions);
    var s := Run(INITIAL, actions);
    assert Sound(s.world.db, s.logins[i]);
  }

  predicate Waiting(s: System, i: nat) {
    && i in s.logins && s.logins[i].pc.LInsertIdentity?
    && s.logins[i].request.key !in s.world.db.identities && Taken(s, i, s.logins[i].request.key)
  }

  /** There is no deadlock: an insert waits for exactly one transaction, which only has its commit left to do, and
      when that transaction commits, fails or dies the insert no longer waits. */
  lemma WaitingEnds(actions: seq<Action>, i: nat) returns (j: nat)
    requires Waiting(Run(INITIAL, actions), i)
    ensures var s := Run(INITIAL, actions);
      && j in s.logins && Holds(s.logins[j], s.logins[i].request.key) && !Waiting(s, j)
      && !Waiting(Apply(s, Advance(j)), i) && !Waiting(Apply(s, Crash(j)), i)
  {
    ConsistentRun(INITIAL, actions);
    var s := Run(INITIAL, actions);
    hide Run, Linked, Sound;
    var key := s.logins[i].request.key;
    j :| j in s.logins && j != i && Holds(s.logins[j], key);
    forall n | n in s.logins && n != j
      ensures !Holds(s.logins[n], key)
    {
      assert Apart(s.logins[j], s.logins[n]);
    }
  }

  // ------------------------------------------------------------ sessions

  /** The last thing the log says of a session: the opening, unless it was closed after. */
  function Standing(log: seq<Event>, id: SessionId): (r: Option<Event>)
    ensures r.Some? ==> r.value.Opened? && r.value.session.id == id && r.value in log
  {
    if log == [] then None
    else
      match log[|log| - 1]
      case Opened(key, duration, s) => if s.id == id then Some(log[|log| - 1]) else Standing(log[..|log| - 1], id)
      case Closed(closed) => if closed == id then None else Standing(log[..|log| - 1], id)
  }

  predicate About(e: Event, id: SessionId) {
    match e
    case Opened(_, _, s) => s.id == id
    case Closed(closed) => closed == id
  }

  /** An opening stands if it is in the log and nothing about that session comes after it. */
  lemma {:induction false} StandingMeaning(log: seq<Event>, id: SessionId, e: Event)
    ensures Standing(log, id) == Some(e) <==>
      e.Opened? && exists i :: 0 <= i < |log| && log[i] == e && About(e, id) && forall j :: i < j < |log| ==>
          !About(log[j], id)
  {
    if log != [] {
      var n := |log| - 1;
      var front := log[..n];
      StandingMeaning(front, id, e);
      assert Standing(log, id) == if About(log[n], id) then (if log[n].Opened? then Some(log[n]) else None)
          else Standing(front, id);
      hide Standing, About;
      assert log == front + [log[n]];
      if Standing(front, id) == Some(e) {
        var i :| 0 <= i < n && front[i] == e && About(e, id) && forall j :: i < j < n ==> !About(front[j], id);
        assert log[i] == e;
      }
      if About(log[n], id) {
        assert log[n] == log[n];
      }
    }
  }

  lemma StandingAppend(log: seq<Event>, e: Event, id: SessionId)
    ensures Standing(log + [e], id) == if !About(e, id) then Standing(log, id) else if e.Opened? then Some(e) else None
  {
    assert (log + [e])[..|log|] == log;
  }

  /** A session the log says was opened: for the user of its key, and for as long as configured. */
  predicate Logged(db: AuthDb, e: Event) {
    e.Opened? ==>
      && Belongs(db, e.key, e.session.userId)
      && Good(e.session) && e.session.expiresAt == e.session.createdAt + e.duration
  }

  /** What the store holds is what the log says stands; the store may have let go of more. */
  ghost predicate Kept(rows: Sessions, log: seq<Event>) {
    forall id | id in rows :: Standing(log, id).Some? && Standing(log, id).value.session == rows[id].session
  }

  ghost predicate Recorded(s: System) {
    && Consistent(s)
    && (forall e | e in s.log :: Logged(s.world.db, e))
    && Kept(s.world.sessions, s.log)
  }

  lemma OpenIsKept(rows: Sessions, log: seq<Event>, e: Event, entry: Entry)
    requires Kept(rows, log) && e.Opened? && entry.session == e.session
    ensures Kept(rows[e.session.id := entry], log + [e])
  {
    var rows' := rows[e.session.id := entry];
    forall id | id in rows'
      ensures Standing(log + [e], id).Some? && Standing(log + [e], id).value.session == rows'[id].session
    {
      StandingAppend(log, e, id);
    }
  }

  lemma CloseIsKept(rows: Sessions, log: seq<Event>, id: SessionId)
    requires Kept(rows, log)
    ensures Kept(rows - {id}, log + [Closed(id)])
  {
    forall other | other in rows - {id}
      ensures Standing(log + [Closed(id)], other) == Standing(log, other)
    {
      StandingAppend(log, Closed(id), other);
    }
  }

  /** What a step does to the sessions. */
  lemma StepOpens(w: World, taken: bool, l: Login)
    requires w.clock > 0 && Linked(w.db) && Sound(w.db, l)
    ensures var m := LoginStep(w, taken, l.request, l.pc);
      if m.event.None? then m.world.sessions == w.sessions
      else
        && l.pc.LSaveSession? && m.event == Some(Opened(l.request.key, l.request.duration, l.pc.session))
        && m.world.db == w.db && Logged(w.db, m.event.value) && w.clock < l.pc.session.expiresAt
        && m.world.sessions ==
            w.sessions[l.pc.session.id := Entry(l.pc.session, w.clock + Sub(l.pc.session.expiresAt, w.clock))]
  {
  }

  lemma AdvanceIsRecorded(s: System, i: nat)
    requires Recorded(s) && i in s.logins
    ensures var m := Move(s, i);
      && Kept(m.world.sessions, s.log + if m.event.Some? then [m.event.value] else [])
      && (m.event.Some? ==> Logged(m.world.db, m.event.value))
  {
    var l := s.logins[i];
    StepOpens(s.world, Taken(s, i, l.request.key), l);
    hide LoginStep, Linked, Sound, Kept, Logged;
    var m := Move(s, i);
    if m.event.Some? {
      OpenIsKept(s.world.sessions, s.log, m.event.value, m.world.sessions[l.pc.session.id]);
    } else {
      assert s.log + [] == s.log;
    }
  }

  lemma RecordedStep(s: System, a: Action)
    requires Recorded(s)
    ensures Recorded(Apply(s, a))
  {
    var s' := Apply(s, a);
    ConsistentStep(s, a);
    if a.Advance? && a.login in s.logins {
      AdvanceIsRecorded(s, a.login);
      hide LoginStep, Consistent, Kept;
      forall e | e in s'.log
        ensures Logged(s'.world.db, e)
      {
        if e in s.log {
          assert Logged(s.world.db, e);
        }
      }
    } else if a.LogOut? && !a.fails && Claimed(a.token).Ok? {
      hide Consistent, Kept;
      CloseIsKept(s.world.sessions, s.log, Claimed(a.token).value);
    } else {
      hide Consistent;
    }
  }

  lemma {:induction false} RecordedRun(s: System, actions: seq<Action>)
    requires Recorded(s)
    ensures Recorded(Run(s, actions))
    decreases |actions|
  {
    if actions != [] {
      RecordedStep(s, actions[0]);
      hide Recorded;
      RecordedRun(Apply(s, actions[0]), actions[1..]);
    }
  }

  /** In every interleaving, any two logins that save a session for the same provider and subject save it for
      the same user, the one the committed identity names. */
  lemma SameKeySameUser(actions: seq<Action>, e: Event, f: Event)
    requires var log := Run(INITIAL, actions).log; e in log && f in log
    requires e.Opened? && f.Opened? && e.key == f.key
    ensures e.session.userId == f.session.userId
    ensures Belongs(Run(INITIAL, actions).world.db, e.key, e.session.userId)
  {
    RecordedRun(INITIAL, actions);
    var s := Run(INITIAL, actions);
    assert Logged(s.world.db, e) && Logged(s.world.db, f);
  }

  /** Session safety, whenever the store evicts and whatever the clocks show: at time `now` a token is good for
      `user` only if a login opened the session it carries for that user and no logout of it succeeded since, and
      `now` is before the time of that login plus the session duration. The user is the one the login's key
      belongs to. */
  lemma SessionsAreSafe(actions: seq<Action>, token: Token, now: Instant, wall: Instant, fails: bool, user: UserId)
    requires wall != 0
    requires Validated(Run(INITIAL, actions).world.sessions, token, now, wall, fails) == Ok(user)
    ensures var s := Run(INITIAL, actions);
      && token.Token? && token.accepted && token.claim.Some? && token.claim.value.Uuid?
      && var id := token.claim.value.id;
      && id.number != 0 && id.version == 7
      && var e := Standing(s.log, id);
      && e.Some? && e.value.session.userId == user
      && now < e.value.session.createdAt + e.value.duration
      && Belongs(s.world.db, e.value.key, user)
  {
    RecordedRun(INITIAL, actions);
    var s := Run(INITIAL, actions);
    var id := Claimed(token).value;
    ClaimedExactly(token, id);
    hide Run, Recorded, Consistent, Standing, Good, Claimed;
    var e := Standing(s.log, id).value;
    assert Logged(s.world.db, e);
    LoadsUnchanged(e.session, wall);
  }

  /** From end to end: two good tokens of sessions opened for one provider and subject speak for one user. */
  lemma OneIdentityOneUser(actions: seq<Action>, id1: SessionId, id2: SessionId, now: Instant, wall: Instant,
                           u1: UserId, u2: UserId, e1: Event, e2: Event)
    requires wall != 0
    requires var rows := Run(INITIAL, actions).world.sessions;
      && Validated(rows, Token(true, Some(Uuid(id1))), now, wall, false) == Ok(u1)
      && Validated(rows, Token(true, Some(Uuid(id2))), now, wall, false) == Ok(u2)
    requires var log := Run(INITIAL, actions).log;
      Standing(log, id1) == Some(e1) && Standing(log, id2) == Some(e2) && e1.key == e2.key
    ensures u1 == u2
  {
    SessionsAreSafe(actions, Token(true, Some(Uuid(id1))), now, wall, false, u1);
    SessionsAreSafe(actions, Token(true, Some(Uuid(id2))), now, wall, false, u2);
  }

  // ------------------------------------------------------------ exact eviction

  /** The clock never goes back and the store lets go of a session only when its time to live is over. */
  predicate InTime(s: System, a: Action) {
    match a
    case Clock(t) => s.world.clock <= t
    case Evict(id) => id in s.world.sessions ==> s.world.sessions[id].evictAt <= s.world.clock
    case _ => true
  }

  predicate AlwaysInTime(s: System, actions: seq<Action>)
    decreases |actions|
  {
    actions != [] ==> InTime(s, actions[0]) && AlwaysInTime(Apply(s, actions[0]), actions[1..])
  }

  /** A standing session is in the store until it expires. */
  predicate Present(w: World, log: seq<Event>, id: SessionId) {
    var e := Standing(log, id);
    e.Some? && w.clock < e.value.session.expiresAt ==> id in w.sessions
  }

  predicate Started(w: World, l: Login) {
    l.pc.LSaveSession? ==>
        l.pc.session.createdAt <= w.clock && l.pc.session.expiresAt == l.pc.session.createdAt + l.request.duration
  }

  ghost predicate Punctual(s: System) {
    && s.world.clock > 0
    && (forall id :: Present(s.world, s.log, id))
    && (forall id | id in s.world.sessions :: s.world.sessions[id].evictAt == s.world.sessions[id].session.expiresAt)
    && Kept(s.world.sessions, s.log)
    && (forall i | i in s.logins :: Started(s.world, s.logins[i]))
  }

  lemma AdvanceIsPunctual(s: System, i: nat)
    requires Punctual(s) && Recorded(s) && i in s.logins
    ensures Punctual(Apply(s, Advance(i)))
  {
    var s' := Apply(s, Advance(i));
    var l := s.logins[i];
    var m := Move(s, i);
    StepOpens(s.world, Taken(s, i, l.request.key), l);
    StartedStep(s.world, Taken(s, i, l.request.key), l);
    hide LoginStep, Linked, Sound, Standing;
    assert m.world.clock == s.world.clock;
    forall id
      ensures Present(s'.world, s'.log, id)
      ensures id in s'.world.sessions ==>
        && Standing(s'.log, id).Some? && Standing(s'.log, id).value.session == s'.world.sessions[id].session
        && s'.world.sessions[id].evictAt == s'.world.sessions[id].session.expiresAt
    {
      assert Present(s.world, s.log, id);
      if m.event.Some? {
        StandingAppend(s.log, m.event.value, id);
      } else {
        assert s.log + [] == s.log;
      }
    }
  }

  lemma StartedStep(w: World, taken: bool, l: Login)
    requires w.clock > 0 && Started(w, l)
    ensures var m := LoginStep(w, taken, l.request, l.pc);
      m.world.clock == w.clock && Started(m.world, l.(pc := m.pc))
  {
    if l.pc.LNewSession? {
      BuiltAsAsked(l.request.sessionId, l.pc.user, w.clock, w.clock + l.request.duration, w.clock);
    }
  }

  lemma LogOutIsPunctual(s: System, token: Token)
    requires Punctual(s) && Claimed(token).Ok?
    ensures Punctual(Apply(s, LogOut(token, false)))
  {
    var s' := Apply(s, LogOut(token, false));
    var closed := Claimed(token).value;
    hide Standing, Claimed;
    forall id
      ensures Present(s'.world, s'.log, id)
      ensures id in s'.world.sessions ==> Standing(s'.log, id) == Standing(s.log, id)
    {
      assert Present(s.world, s.log, id);
      StandingAppend(s.log, Closed(closed), id);
    }
  }

  lemma PunctualStep(s: System, a: Action)
    requires Punctual(s) && Recorded(s) && InTime(s, a)
    ensures Punctual(Apply(s, a))
  {
    var s' := Apply(s, a);
    if a.Advance? && a.login in s.logins {
      AdvanceIsPunctual(s, a.login);
    } else if a.LogOut? && !a.fails && Claimed(a.token).Ok? {
      LogOutIsPunctual(s, a.token);
    } else {
      hide Standing, Recorded, Claimed;
      forall id
        ensures Present(s'.world, s'.log, id)
      {
        assert Present(s.world, s.log, id);
      }
    }
  }

  lemma {:induction false} PunctualRun(s: System, actions: seq<Action>)
    requires Punctual(s) && Recorded(s) && AlwaysInTime(s, actions)
    ensures Punctual(Run(s, actions)) && Recorded(Run(s, actions))
    decreases |actions|
  {
    if actions != [] {
      PunctualStep(s, actions[0]);
      RecordedStep(s, actions[0]);
      hide Punctual, Recorded;
      PunctualRun(Apply(s, actions[0]), actions[1..]);
    }
  }

  /** When clocks only go forward and the store keeps every session for exactly its time to live, a token the verifier
      accepts is good exactly when its session was opened, not closed since, and is not over yet. */
  lemma SessionsAreLive(actions: seq<Action>, id: SessionId, user: UserId)
    requires AlwaysInTime(INITIAL, actions)
    requires id.number != 0 && id.version == 7
    ensures var s := Run(INITIAL, actions);
      var e := Standing(s.log, id);
      Validated(s.world.sessions, Token(true, Some(Uuid(id))), s.world.clock, s.world.clock, false) == Ok(user) <==>
        e.Some? && e.value.session.userId == user && s.world.clock < e.value.session.createdAt + e.value.duration
  {
    PunctualRun(INITIAL, actions);
    var s := Run(INITIAL, actions);
    ClaimedExactly(Token(true, Some(Uuid(id))), id);
    hide Run, Consistent, Standing, Good, Claimed;
    assert Present(s.world, s.log, id);
    if Standing(s.log, id).Some? {
      var e := Standing(s.log, id).value;
      assert Logged(s.world.db, e);
      LoadsUnchanged(e.session, s.world.clock);
    }
  }
}
