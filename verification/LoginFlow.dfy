/** A login from the verified identity on: look the identity up or create user and identity in one
    transaction, then open a session. Written as a step function over what the handlers share,
    and as methods on the stores; a transaction's rows are its own until it commits. */
module LoginFlow {
  import opened Wrappers
  import opened GoTime
  import opened Sessions

  /** OpenID Connect Core 1.0, section 5.7: issuer and subject together name an end user. */
  datatype Key = Key(provider: string, subject: string)

  /** The committed rows. */
  datatype AuthDb = AuthDb(users: set<UserId>, identities: map<Key, UserId>)

  /** What the handlers share. */
  datatype World = World(db: AuthDb, sessions: Sessions, clock: Instant)

  type SessionDuration = d: Duration | MIN_DURATION <= d <= MAX_DURATION

  datatype KeyError = ProviderEmpty | SubjectEmpty

  datatype LoginError =
    | LookupFailed
    | BadKey(cause: KeyError)
    | LoadFailed
    | UserNotFound
    | TransactionFailed
    | IdentityVanished
    | Conflict
    | SessionRejected(reason: SessionError)
    | SessionNotSaved(error: StoreError)
    | TokenNotMade

  function CheckKey(key: Key): Option<KeyError> {
    if key.provider == "" then Some(ProviderEmpty)
    else if key.subject == "" then Some(SubjectEmpty)
    else None
  }

  /** Which of the calls a login makes will fail. */
  datatype LoginEnv = LoginEnv(
    lookupFails: bool,
    loadFails: bool,
    insertUserFails: bool,
    lockedLookupFails: bool,
    insertIdentityFails: bool,
    recheckFails: bool,
    commitFails: bool,
    sessionFails: bool,
    tokenFails: bool)

  /** The new user and session ids are drawn before they are needed; they are used at most once. */
  datatype LoginRequest = LoginRequest(key: Key, newUser: UserId, sessionId: SessionId, duration: SessionDuration,
      env: LoginEnv)

  /** From `LLockedLookup` to `LCommit` the login's transaction holds its uncommitted user row, and at
      `LCommit(true)` its uncommitted identity row too. */
  datatype LoginPc =
    | LLookup
    | LLoadUser(owner: UserId)
    | LInsertUser
    | LLockedLookup
    | LInsertIdentity
    | LRecheck
    | LCommit(inserted: bool)
    | LNewSession(user: UserId)
    | LSaveSession(session: Session)
    | LDone(loggedIn: UserId)
    | LFailed(error: LoginError)

  predicate Over(pc: LoginPc) {
    pc.LDone? || pc.LFailed?
  }

  datatype Event =
    | Opened(key: Key, duration: SessionDuration, session: Session)
    | Closed(id: SessionId)

  datatype LoginMove = LoginMove(world: World, pc: LoginPc, event: Option<Event>)

  /** One statement or call of the login. `taken` says that another transaction holds an uncommitted
      row for the key: an insert of that key then waits, here by staying where it is. */
  function LoginStep(w: World, taken: bool, l: LoginRequest, pc: LoginPc): LoginMove {
    match pc
    case LLookup => LoginMove(w, Looked(w.db, l), None)
    case LLoadUser(owner) =>
      LoginMove(w,
        if l.env.loadFails then LFailed(LoadFailed)
        else if owner !in w.db.users then LFailed(UserNotFound)
        else LNewSession(owner), None)
    case LInsertUser => LoginMove(w, if l.env.insertUserFails then LFailed(TransactionFailed) else LLockedLookup, None)
    case LLockedLookup =>
      LoginMove(w,
        if l.env.lockedLookupFails then LFailed(TransactionFailed)
        else if l.key !in w.db.identities then LInsertIdentity
        else Compared(w.db, l), None)
    case LInsertIdentity =>
      LoginMove(w,
        if l.env.insertIdentityFails then LFailed(TransactionFailed)
        else if l.key in w.db.identities then LRecheck
        else if taken then LInsertIdentity
        else LCommit(true), None)
    case LRecheck =>
      LoginMove(w,
        if l.env.recheckFails then LFailed(TransactionFailed)
        else if l.key !in w.db.identities then LFailed(IdentityVanished)
        else Compared(w.db, l), None)
    case LCommit(inserted) =>
      if l.env.commitFails then LoginMove(w, LFailed(TransactionFailed), None)
      else LoginMove(w.(db := Committed(w.db, l, inserted)), LNewSession(l.newUser), None)
    case LNewSession(user) =>
      LoginMove(w,
        match NewSessionWithID(l.sessionId, user, w.clock, w.clock + l.duration, w.clock)
        case Err(e) => LFailed(SessionRejected(e))
        case Ok(s) => LSaveSession(s), None)
    case LSaveSession(s) =>
      (match Save(w.sessions, s, w.clock, l.env.sessionFails)
       case Err(e) => LoginMove(w, LFailed(SessionNotSaved(e)), None)
       case Ok(rows) =>
         LoginMove(w.(sessions := rows),
           if l.env.tokenFails then LFailed(TokenNotMade) else LDone(s.userId),
           Some(Opened(l.key, l.duration, s))))
    case _ => LoginMove(w, pc, None)
  }

  /** A new identity is checked before the transaction begins. */
  function Creating(key: Key): LoginPc {
    if CheckKey(key).Some? then LFailed(BadKey(CheckKey(key).value)) else LInsertUser
  }

  function Looked(db: AuthDb, l: LoginRequest): LoginPc {
    if l.env.lookupFails then LFailed(LookupFailed)
    else if l.key !in db.identities then Creating(l.key)
    else if CheckKey(l.key).Some? then LFailed(BadKey(CheckKey(l.key).value))
    else LLoadUser(db.identities[l.key])
  }

  /** A row for the key is there: it is this login's own user's, or the transaction gives up. */
  function Compared(db: AuthDb, l: LoginRequest): LoginPc
    requires l.key in db.identities
  {
    if db.identities[l.key] != l.newUser then LFailed(Conflict) else LCommit(false)
  }

  function Committed(db: AuthDb, l: LoginRequest, inserted: bool): AuthDb {
    AuthDb(db.users + {l.newUser}, if inserted then db.identities[l.key := l.newUser] else db.identities)
  }

  // ------------------------------------------------------------ a login run alone

  /** What others do meanwhile: one of them may commit the identity between the locked lookup and the
      insert, and time passes before the session is saved. */
  datatype Meanwhile = Meanwhile(rival: Option<UserId>, later: Instant)

  function Before(w: World, l: LoginRequest, m: Meanwhile, pc: LoginPc): World {
    if pc.LInsertIdentity? then w.(db := WithRival(w.db, l.key, m.rival))
    else if pc.LSaveSession? then w.(clock := m.later)
    else w
  }

  function WithRival(db: AuthDb, key: Key, rival: Option<UserId>): AuthDb {
    if rival.Some? && key !in db.identities then AuthDb(db.users + {rival.value}, db.identities[key := rival.value])
        else db
  }

  function LoginRank(pc: LoginPc): nat {
    match pc
    case LLookup => 8 case LInsertUser => 7 case LLockedLookup => 6 case LInsertIdentity => 5 case LRecheck => 4
    case LCommit(_) => 3 case LLoadUser(_) => 3 case LNewSession(_) => 2 case LSaveSession(_) => 1
    case LDone(_) => 0 case LFailed(_) => 0
  }

  function LoginAlone(w: World, l: LoginRequest, m: Meanwhile, pc: LoginPc): (World, LoginPc)
    decreases LoginRank(pc)
  {
    if Over(pc) then (w, pc)
    else
      var move := LoginStep(Before(w, l, m, pc), false, l, pc);
      LoginAlone(move.world, l, m, move.pc)
  }

  lemma LoginUnfold(w: World, l: LoginRequest, m: Meanwhile, pc: LoginPc) returns (move: LoginMove)
    requires !Over(pc)
    ensures move == LoginStep(Before(w, l, m, pc), false, l, pc)
    ensures LoginAlone(w, l, m, pc) == LoginAlone(move.world, l, m, move.pc)
    ensures Over(move.pc) ==> LoginAlone(move.world, l, m, move.pc) == (move.world, move.pc)
  {
    move := LoginStep(Before(w, l, m, pc), false, l, pc);
  }

  lemma AloneOver(w: World, l: LoginRequest, m: Meanwhile, pc: LoginPc)
    requires Over(pc)
    ensures LoginAlone(w, l, m, pc) == (w, pc)
  {
  }

  class AuthStore {
    var users: set<UserId>
    var identities: map<Key, UserId>

    constructor ()
      ensures View() == AuthDb({}, map[])
    {
      users, identities := {}, map[];
    }

    ghost function View(): AuthDb
      reads this
    {
      AuthDb(users, identities)
    }

    method GetOIDCIdentityByProviderSubject(key: Key, fails: bool) returns (r: Result<Option<UserId>, LoginError>)
      ensures r.Err? <==> fails || (key in identities && CheckKey(key).Some?)
      ensures r.Err? ==> r.error == if fails then LookupFailed else BadKey(CheckKey(key).value)
      ensures r.Ok? ==> r.value == if key in identities then Some(identities[key]) else None
    {
      if fails {
        return Err(LookupFailed);
      }
      if key !in identities {
        return Ok(None);
      }
      var bad := CheckKey(key);
      if bad.Some? {
        return Err(BadKey(bad.value));
      }
      return Ok(Some(identities[key]));
    }

    method GetUserByID(id: UserId, fails: bool) returns (err: Option<LoginError>)
      ensures err == if fails then Some(LoadFailed) else if id !in users then Some(UserNotFound) else None
    {
      if fails {
        return Some(LoadFailed);
      }
      if id !in users {
        return Some(UserNotFound);
      }
      return None;
    }

    /** What another transaction commits, from this one's point of view. */
    method RivalCommits(key: Key, rival: Option<UserId>)
      modifies this
      ensures View() == WithRival(old(View()), key, rival)
    {
      if rival.Some? && key !in identities {
        users, identities := users + {rival.value}, identities[key := rival.value];
      }
    }

    /** The transaction. Its own rows stay in locals until the commit, so a return before the commit rolls back. */
    method SaveUserWithOIDCIdentity(l: LoginRequest, m: Meanwhile, ghost w: World) returns (err: Option<LoginError>)
      requires w.db == View()
      modifies this
      ensures LoginAlone(w, l, m, LInsertUser) ==
        LoginAlone(w.(db := View()), l, m, if err.Some? then LFailed(err.value) else LNewSession(l.newUser))
    {
      hide LoginAlone;
      var (user, key) := (l.newUser, l.key);
      ghost var move := LoginUnfold(w, l, m, LInsertUser);
      if l.env.insertUserFails {
        return Some(TransactionFailed);
      }
      var insertedUser := user;
      move := LoginUnfold(move.world, l, m, move.pc);
      if l.env.lockedLookupFails {
        return Some(TransactionFailed);
      }
      var insertedIdentity := None;
      if key in identities {
        if identities[key] != user {
          return Some(Conflict);
        }
      } else {
        RivalCommits(key, m.rival);
        move := LoginUnfold(move.world, l, m, move.pc);
        if l.env.insertIdentityFails {
          return Some(TransactionFailed);
        }
        var rowsAffected := if key in identities then 0 else 1;
        if rowsAffected == 0 {
          move := LoginUnfold(move.world, l, m, move.pc);
          if l.env.recheckFails {
            return Some(TransactionFailed);
          }
          if identities[key] != user {
            return Some(Conflict);
          }
        } else {
          insertedIdentity := Some(user);
        }
      }
      move := LoginUnfold(move.world, l, m, move.pc);
      if l.env.commitFails {
        return Some(TransactionFailed);
      }
      users := users + {insertedUser};
      if insertedIdentity.Some? {
        identities := identities[key := insertedIdentity.value];
      }
      return None;
    }
  }

  method CreateUserAndIdentity(auth: AuthStore, l: LoginRequest, m: Meanwhile, ghost w: World)
      returns (r: Result<UserId, LoginError>)
    requires w.db == auth.View()
    modifies auth
    ensures LoginAlone(w, l, m, Creating(l.key)) ==
      LoginAlone(w.(db := auth.View()), l, m, if r.Err? then LFailed(r.error) else LNewSession(r.value))
  {
    hide LoginAlone;
    var bad := CheckKey(l.key);
    if bad.Some? {
      return Err(BadKey(bad.value));
    }
    var err := auth.SaveUserWithOIDCIdentity(l, m, w);
    if err.Some? {
      return Err(err.value);
    }
    return Ok(l.newUser);
  }

  method ResolveUser(auth: AuthStore, l: LoginRequest, m: Meanwhile, ghost w: World)
      returns (r: Result<UserId, LoginError>)
    requires w.db == auth.View()
    modifies auth
    ensures LoginAlone(w, l, m, LLookup) ==
      LoginAlone(w.(db := auth.View()), l, m, if r.Err? then LFailed(r.error) else LNewSession(r.value))
  {
    hide LoginAlone;
    ghost var move := LoginUnfold(w, l, m, LLookup);
    var found := auth.GetOIDCIdentityByProviderSubject(l.key, l.env.lookupFails);
    if found.Err? {
      return Err(found.error);
    }
    if found.value.None? {
      r := CreateUserAndIdentity(auth, l, m, w);
      return;
    }
    move := LoginUnfold(move.world, l, m, move.pc);
    var err := auth.GetUserByID(found.value.value, l.env.loadFails);
    if err.Some? {
      return Err(err.value);
    }
    return Ok(found.value.value);
  }

  /** The login on the two stores, with the clock read as `now` when the session is built and as `m.later` when
      its time to live is computed. */
  method Login(auth: AuthStore, sessions: SessionStore, l: LoginRequest, m: Meanwhile, now: Instant)
      returns (r: Result<UserId, LoginError>)
    modifies auth, sessions
    ensures var (w, pc) := LoginAlone(World(old(auth.View()), old(sessions.rows), now), l, m, LLookup);
      && auth.View() == w.db && sessions.rows == w.sessions
      && pc == if r.Ok? then LDone(r.value) else LFailed(r.error)
  {
    hide LoginAlone, NewSessionWithID, Save;
    ghost var w := World(auth.View(), sessions.rows, now);
    var user := ResolveUser(auth, l, m, w);
    w := w.(db := auth.View());
    if user.Err? {
      AloneOver(w, l, m, LFailed(user.error));
      return Err(user.error);
    }
    ghost var move := LoginUnfold(w, l, m, LNewSession(user.value));
    BuiltAsAsked(l.sessionId, user.value, now, now + l.duration, now);
    var session := NewSessionWithID(l.sessionId, user.value, now, now + l.duration, now);
    if session.Err? {
      return Err(SessionRejected(session.error));
    }
    move := LoginUnfold(move.world, l, m, move.pc);
    var err := sessions.SaveSession(session.value, m.later, l.env.sessionFails);
    if err.Some? {
      return Err(SessionNotSaved(err.value));
    }
    if l.env.tokenFails {
      return Err(TokenNotMade);
    }
    return Ok(user.value);
  }

  /** User and identity, both there. */
  function Both(db: AuthDb, l: LoginRequest): AuthDb {
    AuthDb(db.users + {l.newUser}, db.identities[l.key := l.newUser])
  }

  /** Exactly when a user is found or made: the calls on the way do not fail, and a free key stays free. */
  predicate Resolvable(db: AuthDb, l: LoginRequest, m: Meanwhile) {
    && !l.env.lookupFails && l.key.provider != "" && l.key.subject != ""
    && if l.key in db.identities then !l.env.loadFails
       else
         && !l.env.insertUserFails && !l.env.lockedLookupFails && !l.env.insertIdentityFails && !l.env.commitFails
         && m.rival.None?
  }

  /** Exactly when the session of a user is opened and its token made: the id and the duration are
      proper, and the session is not over before it is saved. */
  predicate Openable(now: Instant, l: LoginRequest, m: Meanwhile, user: UserId) {
    && l.sessionId.number != 0 && l.sessionId.version == 7 && user != 0
    && l.duration > 0 && now + l.duration != 0 && m.later < now + l.duration
    && !l.env.sessionFails && !l.env.tokenFails
  }

  /** What goes wrong on the way to the user, the first fault first. */
  function ResolveFault(db: AuthDb, l: LoginRequest, m: Meanwhile): Option<LoginError> {
    if l.env.lookupFails then Some(LookupFailed)
    else if l.key.provider == "" then Some(BadKey(ProviderEmpty))
    else if l.key.subject == "" then Some(BadKey(SubjectEmpty))
    else if l.key in db.identities then if l.env.loadFails then Some(LoadFailed) else None
    else if l.env.insertUserFails || l.env.lockedLookupFails || l.env.insertIdentityFails then Some(TransactionFailed)
    else if m.rival.Some? then Some(if l.env.recheckFails then TransactionFailed else Conflict)
    else if l.env.commitFails then Some(TransactionFailed)
    else None
  }

  /** What goes wrong with the session of a user, the first fault first. */
  function OpenFault(now: Instant, l: LoginRequest, m: Meanwhile, user: UserId): Option<LoginError> {
    var fault := SessionFault(l.sessionId, user, now, now + l.duration);
    if fault.Some? then Some(SessionRejected(fault.value))
    else if now + l.duration <= m.later then Some(SessionNotSaved(AlreadyExpired))
    else if l.env.sessionFails then Some(SessionNotSaved(Unavailable))
    else if l.env.tokenFails then Some(TokenNotMade)
    else None
  }

  /** Alone but for a rival, the login finds the user of a known key; of a free key it makes both user and identity,
      or neither. A conflict means the rival took the key in between. */
  lemma Resolves(w: World, l: LoginRequest, m: Meanwhile) returns (db: AuthDb, pc: LoginPc)
    requires l.newUser !in w.db.users && m.rival != Some(l.newUser)
    requires forall k | k in w.db.identities :: w.db.identities[k] in w.db.users
    ensures LoginAlone(w, l, m, LLookup) == LoginAlone(w.(db := db), l, m, pc)
    ensures pc.LNewSession? || pc.LFailed?
    ensures pc.LNewSession? <==> Resolvable(w.db, l, m)
    ensures ResolveFault(w.db, l, m) == if pc.LFailed? then Some(pc.error) else None
    ensures pc.LNewSession? ==>
        db == (if l.key in w.db.identities then w.db else Both(w.db, l)) && db.identities[l.key] == pc.user
    ensures pc.LFailed? ==>
      && !AfterCommit(pc.error) && !pc.error.IdentityVanished? && !pc.error.UserNotFound?
      && (db == w.db || db == WithRival(w.db, l.key, m.rival))
      && (pc.error.Conflict? ==> l.key !in w.db.identities && m.rival.Some? && db == WithRival(w.db, l.key, m.rival))
  {
    hide LoginAlone;
    var move := LoginUnfold(w, l, m, LLookup);
    if move.pc.LInsertUser? {
      move := LoginUnfold(move.world, l, m, move.pc);
    }
    if move.pc.LLockedLookup? {
      move := LoginUnfold(move.world, l, m, move.pc);
    }
    if move.pc.LInsertIdentity? {
      move := LoginUnfold(move.world, l, m, move.pc);
    }
    if move.pc.LRecheck? {
      move := LoginUnfold(move.world, l, m, move.pc);
    }
    if move.pc.LCommit? || move.pc.LLoadUser? {
      move := LoginUnfold(move.world, l, m, move.pc);
    }
    db, pc := move.world.db, move.pc;
  }

  /** Then the session: on success it is in the store, for the user found, expiring the configured time after
      it was built and not before it was saved. */
  lemma OpensSession(w: World, l: LoginRequest, m: Meanwhile, user: UserId)
    ensures var (w', pc) := LoginAlone(w, l, m, LNewSession(user));
      && w'.db == w.db && Over(pc)
      && (pc.LFailed? ==> AfterCommit(pc.error))
      && (pc.LFailed? && !pc.error.TokenNotMade? ==> w'.sessions == w.sessions)
      && (pc.LDone? <==> Openable(w.clock, l, m, user))
      && OpenFault(w.clock, l, m, user) == (if pc.LFailed? then Some(pc.error) else None)
      && (pc.LDone? ==> pc.loggedIn == user)
      && (pc.LDone? || pc == LFailed(TokenNotMade) ==>
            && l.sessionId in w'.sessions && w'.sessions == w.sessions[l.sessionId := w'.sessions[l.sessionId]]
            && var s := w'.sessions[l.sessionId].session;
            && s.id == l.sessionId && s.userId == user && m.later < s.expiresAt == w.clock + l.duration)
  {
    hide LoginAlone;
    BuiltAsAsked(l.sessionId, user, w.clock, w.clock + l.duration, w.clock);
    var move := LoginUnfold(w, l, m, LNewSession(user));
    if move.pc.LSaveSession? {
      move := LoginUnfold(move.world, l, m, move.pc);
    }
  }

  /** A login alone, from request to final state. It succeeds for the user the key belonged to or, when the key
      was free, for the new user, which is then in the database with its identity; and the session is in the
      store. When it fails before the session, nothing of it is left: the database is as it was, or as the rival
      left it. When it fails after, the user and the identity stay, both. */
  lemma LoginOutcome(w: World, l: LoginRequest, m: Meanwhile)
    requires l.newUser !in w.db.users && m.rival != Some(l.newUser)
    requires forall k | k in w.db.identities :: w.db.identities[k] in w.db.users
    ensures var (w', pc) := LoginAlone(w, l, m, LLookup);
      var resolved := if l.key in w.db.identities then w.db else Both(w.db, l);
      && Over(pc)
      && (pc.LDone? <==> Resolvable(w.db, l, m) && Openable(w.clock, l, m, resolved.identities[l.key]))
      && (pc.LFailed? ==>
            if ResolveFault(w.db, l, m).Some? then ResolveFault(w.db, l, m) == Some(pc.error)
            else OpenFault(w.clock, l, m, resolved.identities[l.key]) == Some(pc.error))
      && (pc.LDone? ==>
            && w'.db == resolved && pc.loggedIn == resolved.identities[l.key]
            && l.sessionId in w'.sessions && w'.sessions == w.sessions[l.sessionId := w'.sessions[l.sessionId]]
            && w'.sessions[l.sessionId].session.userId == pc.loggedIn
            && m.later < w'.sessions[l.sessionId].session.expiresAt == w.clock + l.duration)
      && (pc.LFailed? ==>
            if AfterCommit(pc.error) then w'.db == resolved && (pc.error.TokenNotMade? || w'.sessions == w.sessions)
            else (w'.db == w.db || w'.db == WithRival(w.db, l.key, m.rival)) && w'.sessions == w.sessions)
      && (pc == LFailed(Conflict) ==>
            l.key !in w.db.identities && m.rival.Some? && w'.db == WithRival(w.db, l.key, m.rival))
  {
    hide LoginAlone, Resolvable, Openable, ResolveFault, OpenFault;
    var db, pc := Resolves(w, l, m);
    if pc.LNewSession? {
      OpensSession(w.(db := db), l, m, pc.user);
    } else {
      AloneOver(w.(db := db), l, m, pc);
    }
  }

  /** The errors that only arise once the user is resolved. */
  predicate AfterCommit(e: LoginError) {
    e.SessionRejected? || e.SessionNotSaved? || e.TokenNotMade?
  }
}
