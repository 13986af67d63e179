/** Sessions: how one is built, the store that forgets them after their time to live, and the two
    handlers that take a session token, `Validate` and `Logout`. */
module Sessions {
  import opened Wrappers
  import opened GoTime
  import TaskDomain

  type UserId = TaskDomain.UserId

  /** The nil UUID. */
  const NO_USER: UserId := 0

  /** A UUID: number 0 is the nil one, which has no version. */
  datatype SessionId = SessionId(number: nat, version: nat)

  datatype SessionError = IdEmpty | IdBadFormat | IdNotV7 | UserMissing | ExpiryMissing | ExpiresBeforeStart

  function IdError(id: SessionId): Option<SessionError> {
    if id.number == 0 then Some(IdEmpty)
    else if id.version != 7 then Some(IdNotV7)
    else None
  }

  /** A text that should name a session. */
  datatype IdText = NoText | BadText | Uuid(id: SessionId)

  function ParseID(text: IdText): Result<SessionId, SessionError> {
    match text
    case NoText => Err(IdEmpty)
    case BadText => Err(IdBadFormat)
    case Uuid(id) => if IdError(id).Some? then Err(IdError(id).value) else Ok(id)
  }

  datatype Session = Session(id: SessionId, userId: UserId, createdAt: Instant, expiresAt: Instant)

  /** The constructor every session goes through, new or loaded. `wall` is the machine's own clock,
      which replaces a missing creation time. */
  function NewSessionWithID(id: SessionId, userId: UserId, createdAt: Instant, expiresAt: Instant, wall: Instant)
    : Result<Session, SessionError>
  {
    var created := if createdAt == 0 then wall else createdAt;
    if IdError(id).Some? then Err(IdError(id).value)
    else if userId == NO_USER then Err(UserMissing)
    else if expiresAt == 0 then Err(ExpiryMissing)
    else if expiresAt <= created then Err(ExpiresBeforeStart)
    else Ok(Session(id, userId, created, expiresAt))
  }

  /** What a session must be: its id a version 7 UUID, its user not the nil one, and it ends after it begins. */
  predicate Good(s: Session) {
    && s.id.number != 0 && s.id.version == 7 && s.userId != 0
    && s.createdAt != 0 && s.expiresAt != 0 && s.createdAt < s.expiresAt
  }

  /** A session that was built stays as it is however often it is stored and loaded, at any time; and
      those are the only ones a load gives back unchanged. */
  lemma LoadsUnchanged(s: Session, wall: Instant)
    requires wall != 0
    ensures Good(s) <==> NewSessionWithID(s.id, s.userId, s.createdAt, s.expiresAt, wall) == Ok(s)
  {
  }

  /** What is wrong with the parts of a session, the first fault first. */
  function SessionFault(id: SessionId, userId: UserId, created: Instant, expires: Instant): Option<SessionError> {
    if id.number == 0 then Some(IdEmpty)
    else if id.version != 7 then Some(IdNotV7)
    else if userId == 0 then Some(UserMissing)
    else if expires == 0 then Some(ExpiryMissing)
    else if expires <= created then Some(ExpiresBeforeStart)
    else None
  }

  /** Exactly which parts make a session; a missing creation time becomes the machine's time. */
  lemma BuiltExactly(id: SessionId, userId: UserId, createdAt: Instant, expiresAt: Instant, wall: Instant)
    ensures var created := if createdAt == 0 then wall else createdAt;
      NewSessionWithID(id, userId, createdAt, expiresAt, wall) ==
      match SessionFault(id, userId, created, expiresAt)
      case Some(e) => Err(e)
      case None => Ok(Session(id, userId, created, expiresAt))
  {
  }

  lemma BuiltAsAsked(id: SessionId, userId: UserId, createdAt: Instant, expiresAt: Instant, wall: Instant)
    ensures var r := NewSessionWithID(id, userId, createdAt, expiresAt, wall);
      r.Ok? ==>
        && r.value.id == id && r.value.userId == userId && r.value.expiresAt == expiresAt
        && r.value.createdAt == (if createdAt == 0 then wall else createdAt)
        && (wall != 0 ==> Good(r.value))
  {
  }

  /** What the store keeps under a session's key, and when it lets go of it. */
  datatype Entry = Entry(session: Session, evictAt: Instant)

  type Sessions = map<SessionId, Entry>

  datatype StoreError = Unavailable | AlreadyExpired | NotFound | BadRecord(cause: SessionError)

  function Save(rows: Sessions, s: Session, now: Instant, fails: bool): Result<Sessions, StoreError> {
    var ttl := Sub(s.expiresAt, now);
    if ttl <= 0 then Err(AlreadyExpired)
    else if fails then Err(Unavailable)
    else Ok(rows[s.id := Entry(s, now + ttl)])
  }

  function Get(rows: Sessions, id: SessionId, wall: Instant, fails: bool): Result<Session, StoreError> {
    if fails then Err(Unavailable)
    else if id !in rows then Err(NotFound)
    else
      var s := rows[id].session;
      match NewSessionWithID(s.id, s.userId, s.createdAt, s.expiresAt, wall)
      case Ok(loaded) => Ok(loaded)
      case Err(e) => Err(BadRecord(e))
  }

  class SessionStore {
    var rows: Sessions

    constructor ()
      ensures rows == map[]
    {
      rows := map[];
    }

    method SaveSession(s: Session, now: Instant, fails: bool) returns (err: Option<StoreError>)
      modifies this
      ensures var r := Save(old(rows), s, now, fails);
        if r.Ok? then err == None && rows == r.value else err == Some(r.error) && rows == old(rows)
      ensures err == if s.expiresAt <= now then Some(AlreadyExpired) else if fails then Some(Unavailable) else None
      ensures err.None? ==>
        && s.id in rows && rows == old(rows)[s.id := rows[s.id]] && rows[s.id].session == s
        && (s.expiresAt - now <= MAX_DURATION ==> rows[s.id].evictAt == s.expiresAt)
    {
      var ttl := Sub(s.expiresAt, now);
      if ttl <= 0 {
        return Some(AlreadyExpired);
      }
      if fails {
        return Some(Unavailable);
      }
      rows := rows[s.id := Entry(s, now + ttl)];
      return None;
    }

    method GetSession(id: SessionId, wall: Instant, fails: bool) returns (r: Result<Session, StoreError>)
      ensures r == Get(rows, id, wall, fails)
      ensures fails ==> r == Err(Unavailable)
      ensures !fails && id !in rows ==> r == Err(NotFound)
      ensures !fails && id in rows && wall != 0 ==> (Good(rows[id].session) <==> r == Ok(rows[id].session))
    {
      if fails {
        return Err(Unavailable);
      }
      if id !in rows {
        return Err(NotFound);
      }
      var s := rows[id].session;
      var loaded := NewSessionWithID(s.id, s.userId, s.createdAt, s.expiresAt, wall);
      if loaded.Err? {
        return Err(BadRecord(loaded.error));
      }
      return Ok(loaded.value);
    }

    method DeleteSession(id: SessionId, fails: bool) returns (err: Option<StoreError>)
      modifies this
      ensures if fails then err == Some(Unavailable) && rows == old(rows) else err == None && rows == old(rows) - {id}
    {
      if fails {
        return Some(Unavailable);
      }
      rows := rows - {id};
      return None;
    }
  }

  /** A token as the handlers see it: whether the verifier accepts it now, and the text it carries
      for the session id, if that can be extracted. */
  datatype Token = EmptyToken | Token(accepted: bool, claim: Option<IdText>)

  datatype AuthError = TokenRequired | TokenInvalid | SessionNotFound(cause: StoreError) | SessionExpired | LogoutFailed

  /** The session a token speaks for. */
  function Claimed(token: Token): Result<SessionId, AuthError> {
    if token.EmptyToken? then Err(TokenRequired)
    else if !token.accepted || token.claim.None? || ParseID(token.claim.value).Err? then Err(TokenInvalid)
    else Ok(ParseID(token.claim.value).value)
  }

  /** Exactly which tokens speak for a session. */
  lemma ClaimedExactly(token: Token, id: SessionId)
    ensures Claimed(token) == Ok(id) <==> SpeaksFor(token, id)
    ensures Claimed(token) == Err(TokenRequired) <==> token.EmptyToken?
    ensures Claimed(token).Err? ==> Claimed(token).error in {TokenRequired, TokenInvalid}
  {
  }

  function Validated(rows: Sessions, token: Token, now: Instant, wall: Instant, fails: bool)
    : Result<UserId, AuthError>
  {
    match Claimed(token)
    case Err(e) => Err(e)
    case Ok(id) =>
      match Get(rows, id, wall, fails)
      case Err(e) => Err(SessionNotFound(e))
      case Ok(s) => if s.expiresAt <= now then Err(SessionExpired) else Ok(s.userId)
  }

  /** The verifier accepts the token and it carries the id, which is a version 7 UUID. */
  predicate SpeaksFor(token: Token, id: SessionId) {
    token == Token(true, Some(Uuid(id))) && id.number != 0 && id.version == 7
  }

  /** Validation reads the store and decides: no token, a token that speaks for no session, a session that is not
      there (or cannot be read), one that is over, or its user. */
  method Validate(store: SessionStore, token: Token, now: Instant, wall: Instant, fails: bool)
      returns (r: Result<UserId, AuthError>)
    ensures r == Validated(store.rows, token, now, wall, fails)
    ensures r == Err(TokenRequired) <==> token.EmptyToken?
    ensures r == Err(TokenInvalid) <==> token.Token? && forall id :: !SpeaksFor(token, id)
    ensures forall id | SpeaksFor(token, id) ::
      if fails then r == Err(SessionNotFound(Unavailable))
      else if id !in store.rows then r == Err(SessionNotFound(NotFound))
      else wall != 0 && Good(store.rows[id].session) ==>
        r == if store.rows[id].session.expiresAt <= now then Err(SessionExpired) else Ok(store.rows[id].session.userId)
  {
    if token.EmptyToken? {
      return Err(TokenRequired);
    }
    if !token.accepted || token.claim.None? {
      return Err(TokenInvalid);
    }
    var id := ParseID(token.claim.value);
    if id.Err? {
      return Err(TokenInvalid);
    }
    assert SpeaksFor(token, id.value);
    var found := store.GetSession(id.value, wall, fails);
    if found.Err? {
      return Err(SessionNotFound(found.error));
    }
    if found.value.expiresAt <= now {
      return Err(SessionExpired);
    }
    return Ok(found.value.userId);
  }

  /** A logout succeeds if and only if the token speaks for a session and the store does not fail. Then exactly
      that session is gone from the store, if it was there; otherwise nothing changed. */
  method Logout(store: SessionStore, token: Token, fails: bool) returns (err: Option<AuthError>)
    modifies store
    ensures err.None? <==> !fails && exists id :: SpeaksFor(token, id)
    ensures forall id | SpeaksFor(token, id) :: store.rows == if fails then old(store.rows) else old(store.rows) - {id}
    ensures err.Some? ==> store.rows == old(store.rows)
    ensures err.Some? ==>
      err.value == if token.EmptyToken? then TokenRequired
                   else if exists id :: SpeaksFor(token, id) then LogoutFailed else TokenInvalid
  {
    if token.EmptyToken? {
      return Some(TokenRequired);
    }
    if !token.accepted || token.claim.None? {
      return Some(TokenInvalid);
    }
    var id := ParseID(token.claim.value);
    if id.Err? {
      return Some(TokenInvalid);
    }
    assert SpeaksFor(token, id.value);
    var failed := store.DeleteSession(id.value, fails);
    if failed.Some? {
      return Some(LogoutFailed);
    }
    return None;
  }
}
