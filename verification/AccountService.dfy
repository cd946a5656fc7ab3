/** The repositories over one database session, and the service that calls them. */
module AccountService {
  import opened Prelude
  import opened FailedLogins
  import opened Accounts
  import LoginProtocol

  /** The rows a database session reads and writes in place. */
  class Database {
    var rows: Db

    constructor ()
      ensures rows == Db(map[], map[])
    {
      rows := Db(map[], map[]);
    }
  }

  /** From `before` to `after` the user and all its sessions have disappeared, and nothing else has changed. */
  ghost predicate UserGone(before: Db, after: Db, id: Id) {
    && id !in after.users
    && (forall u | u != id :: u in after.users <==> u in before.users)
    && (forall u | u in after.users :: after.users[u] == before.users[u])
    && (forall s :: s in after.sessions <==> s in before.sessions && before.sessions[s].userId != id)
    && (forall s | s in after.sessions :: after.sessions[s] == before.sessions[s])
  }

  /** Every live session of the user has been revoked at `now`, and nothing else has changed. */
  ghost predicate UserRevoked(before: Db, after: Db, userId: Id, now: Instant) {
    && after.users == before.users
    && (forall s :: s in after.sessions <==> s in before.sessions)
    && (forall s | s in before.sessions && before.sessions[s].userId != userId ::
          after.sessions[s] == before.sessions[s])
    && (forall s | s in before.sessions && before.sessions[s].userId == userId ::
          && after.sessions[s] == before.sessions[s].(revokedAt := after.sessions[s].revokedAt)
          && after.sessions[s].revokedAt
             == if before.sessions[s].revokedAt.Some? then before.sessions[s].revokedAt else Some(now))
  }

  lemma GoneIsDeleted(before: Db, after: Db, id: Id)
    requires UserGone(before, after, id)
    ensures after == DeleteUser(before, id)
  {
    var deleted := DeleteUser(before, id);
    forall u ensures u in after.users <==> u in deleted.users {
      if u != id {
        assert u in after.users <==> u in before.users;
      }
    }
    assert after.users == deleted.users && after.sessions == deleted.sessions;
  }

  lemma OnlySessionIsPut(before: Db, after: Db, sid: Id)
    requires after.users == before.users && OnlySession(before, after, sid)
    ensures after == PutSession(before, sid, after.sessions[sid])
  {
    assert after.sessions == PutSession(before, sid, after.sessions[sid]).sessions;
  }

  lemma RevokedIsRevokeAll(before: Db, after: Db, userId: Id, now: Instant)
    requires UserRevoked(before, after, userId, now)
    ensures after == RevokeAllFor(before, userId, now)
  {
    assert after.sessions == RevokeAllFor(before, userId, now).sessions;
  }

  class UserRepository {
    const session: Database

    constructor (session: Database)
      ensures this.session == session
    {
      this.session := session;
    }

    method Create(id: Id, username: Identity, normalized: string, password: PasswordHash, now: Instant)
      returns (result: Result<User>)
      modifies session
      ensures result == if old(MayInsert(session.rows, id, normalized))
                        then Ok(User(username, normalized, password, true, now, now)) else Err(IdentifierTaken)
      ensures session.rows.sessions == old(session.rows).sessions
      ensures session.rows.users
              == if result.Ok? then old(session.rows).users[id := result.value] else old(session.rows).users
    {
      if !MayInsert(session.rows, id, normalized) {
        return Err(IdentifierTaken);
      }
      var user := User(username, normalized, password, true, now, now);
      session.rows := session.rows.(users := session.rows.users[id := user]);
      return Ok(user);
    }

    method GetById(id: Id) returns (user: Option<User>)
      ensures user.Some? <==> id in session.rows.users
      ensures user.Some? ==> session.rows.users[id] == user.value
    {
      user := if id in session.rows.users then Some(session.rows.users[id]) else None;
    }

    method GetByNormalizedUsername(normalized: string) returns (found: Lookup)
      ensures found == Scalar(Named(session.rows, normalized))
      ensures found.One? ==> found.id in session.rows.users
    {
      found := Scalar(Named(session.rows, normalized));
    }

    /** The account is gone and no session of it remains; every other row is as it was. */
    method Delete(id: Id)
      modifies session
      ensures UserGone(old(session.rows), session.rows, id)
    {
      session.rows := DeleteUser(session.rows, id);
    }
  }

  class SessionRepository {
    const session: Database

    constructor (session: Database)
      ensures this.session == session
    {
      this.session := session;
    }

    method Create(sid: Id, userId: Id, refreshHash: TokenHash, now: Instant, expiresAt: Instant)
      modifies session
      ensures session.rows.users == old(session.rows.users) && OnlySession(old(session.rows), session.rows, sid)
      ensures session.rows.sessions[sid] == Session(userId, refreshHash, now, expiresAt, None)
    {
      session.rows := PutSession(session.rows, sid, Session(userId, refreshHash, now, expiresAt, None));
    }

    method Get(sid: Id) returns (found: Option<Session>)
      ensures found == if sid in session.rows.sessions then Some(session.rows.sessions[sid]) else None
    {
      found := if sid in session.rows.sessions then Some(session.rows.sessions[sid]) else None;
    }

    method GetByRefreshHash(hash: TokenHash) returns (found: Lookup)
      ensures found == Scalar(WithHash(session.rows, hash))
      ensures found.One? ==> found.id in session.rows.sessions
    {
      found := Scalar(WithHash(session.rows, hash));
    }

    /** The session is revoked; an earlier revocation stands. */
    method Revoke(sid: Id, now: Instant)
      requires sid in session.rows.sessions
      modifies session
      ensures session.rows.users == old(session.rows.users) && OnlySession(old(session.rows), session.rows, sid)
      ensures var row, row' := old(session.rows).sessions[sid], session.rows.sessions[sid];
              && row' == row.(revokedAt := row'.revokedAt)
              && row'.revokedAt == if row.revokedAt.Some? then row.revokedAt else Some(now)
    {
      var row := session.rows.sessions[sid];
      if row.revokedAt.None? {
        session.rows := PutSession(session.rows, sid, row.(revokedAt := Some(now)));
      }
    }

    /** No session of the user is live afterwards, and the count is that of the rows that have changed. */
    method RevokeAllForUser(userId: Id, now: Instant) returns (count: nat)
      modifies session
      ensures UserRevoked(old(session.rows), session.rows, userId, now)
      ensures count == |set s | s in old(session.rows).sessions
                              && session.rows.sessions[s] != old(session.rows).sessions[s]|
    {
      var rows := session.rows;
      var live := set s | s in rows.sessions && rows.sessions[s].userId == userId && rows.sessions[s].revokedAt.None?;
      session.rows := RevokeAllFor(rows, userId, now);
      count := |live|;
      assert live == set s | s in rows.sessions && session.rows.sessions[s] != rows.sessions[s];
    }

    /** The session gets a new hash and expiry; owner, creation and revocation stay. */
    method RotateRefreshToken(sid: Id, hash: TokenHash, expiresAt: Instant)
      requires sid in session.rows.sessions
      modifies session
      ensures session.rows.users == old(session.rows.users) && OnlySession(old(session.rows), session.rows, sid)
      ensures var row, row' := old(session.rows).sessions[sid], session.rows.sessions[sid];
              && row'.refreshHash == hash && row'.expiresAt == expiresAt
              && row'.userId == row.userId && row'.createdAt == row.createdAt && row'.revokedAt == row.revokedAt
    {
      var row := session.rows.sessions[sid];
      session.rows := PutSession(session.rows, sid, row.(refreshHash := hash, expiresAt := expiresAt));
    }
  }

  /** The tracker's history after a login that passed its block check ended with `result`. */
  ghost function Remembered(history: Failures, normalized: string, result: Result<Credentials>, at: Instant): Failures {
    match result
    case Ok(_) => history - {normalized}
    case Err(MultipleResults) => history
    case Err(_) => history[normalized := Of(history, normalized) + [at]]
  }

  /** The tracker remembers what the protocol says has happened. */
  ghost predicate InStep(tracker: FailedLoginTracker, s: LoginProtocol.State)
    reads tracker
  {
    s.history == tracker.history && tracker.lastCall <= s.now
  }

  /** The outcome as an event of the login protocol. */
  function OutcomeEvent(attempt: LoginProtocol.Attempt, result: Result<Credentials>, at: Instant): LoginProtocol.Event {
    match result
    case Ok(_) => LoginProtocol.Succeed(attempt, at)
    case Err(MultipleResults) => LoginProtocol.Abort(attempt)
    case Err(_) => LoginProtocol.Fail(attempt, at)
  }

  /** `FinishLogin` moves the tracker's history as the outcome's event moves the protocol's, so the
      protocol's bound is a bound on the service. */
  lemma OutcomesFollowTheProtocol(
      p: LoginProtocol.Policy, s: LoginProtocol.State, attempt: LoginProtocol.Attempt, result: Result<Credentials>,
      at: Instant)
    requires attempt in s.inFlight && at >= s.now
    ensures LoginProtocol.Enabled(s, OutcomeEvent(attempt, result, at))
    ensures LoginProtocol.Apply(p, s, OutcomeEvent(attempt, result, at)).history
            == Remembered(s.history, s.inFlight[attempt], result, at)
  {
  }

  class AuthService {
    const config: Config
    const failedLogins: FailedLoginTracker

    constructor (config: Config, failedLogins: FailedLoginTracker)
      ensures this.config == config && this.failedLogins == failedLogins
    {
      this.config := config;
      this.failedLogins := failedLogins;
    }

    ghost function Policy(): LoginProtocol.Policy {
      LoginProtocol.Policy(failedLogins.maxFailures, failedLogins.windowSeconds)
    }

    method Register(
        db: Database, id: Id, username: string, password: string, now: Instant)
        returns (result: Result<User>)
      modifies db
      ensures (db.rows, result) == Accounts.Register(config, old(db.rows), id, username, password, now)
    {
      var valid := config.unicode.Validate(username);
      if valid.None? {
        return Err(InvalidUsername);
      }
      if !config.permitted(password) {
        return Err(InvalidPassword);
      }
      var users := new UserRepository(db);
      result := users.Create(id, config.unicode.strip(username), valid.value, Hashed(config, password), now);
    }

    /** `login` up to its first await: the normalized identifier of a login that may go on. The protocol
        takes the same step. */
    method BeginLogin(
        username: string, at: Instant, ghost attempt: LoginProtocol.Attempt, ghost s: LoginProtocol.State)
        returns (result: Result<string>, ghost s': LoginProtocol.State)
      requires failedLogins.Valid() && InStep(failedLogins, s) && at >= s.now && attempt !in s.inFlight
      modifies failedLogins`failures, failedLogins`lastCall
      ensures failedLogins.Valid() && InStep(failedLogins, s')
      ensures var valid := config.unicode.Validate(username);
              && s' == (if valid.None? then s
                        else LoginProtocol.Apply(Policy(), s, LoginProtocol.Check(attempt, valid.value, at)))
              && (result.Ok? <==> attempt in s'.inFlight)
              && (result.Ok? ==> s'.inFlight[attempt] == result.value)
              && (result.Err? ==> result.failure == if valid.None? then MalformedIdentifier else ThresholdReached)
    {
      var valid := config.unicode.Validate(username);
      if valid.None? {
        return Err(MalformedIdentifier), s;
      }
      var blocked := failedLogins.IsBlocked(valid.value, at);
      s' := LoginProtocol.Apply(Policy(), s, LoginProtocol.Check(attempt, valid.value, at));
      result := if blocked then Err(ThresholdReached) else Ok(valid.value);
    }

    method RecordFailure(normalized: string, at: Instant)
      requires failedLogins.Valid() && at >= failedLogins.lastCall
      modifies failedLogins`failures, failedLogins`history, failedLogins`lastCall
      ensures failedLogins.Valid() && failedLogins.lastCall == at
      ensures failedLogins.history
              == old(failedLogins.history)[normalized := Of(old(failedLogins.history), normalized) + [at]]
    {
      var _ := failedLogins.RecordFailure(normalized, at);
    }

    method OpenSession(
        db: Database, id: Id, sid: Id, token: Token, jti: string, now: Instant)
        returns (credentials: Credentials)
      requires id in db.rows.users
      modifies db
      ensures (db.rows, credentials) == Accounts.OpenSession(config, old(db.rows), id, sid, token, jti, now)
    {
      var sessions := new SessionRepository(db);
      var username := db.rows.users[id].username;
      ghost var before := db.rows;
      sessions.Create(sid, id, Sha256(token), now, now + config.refreshTtl);
      OnlySessionIsPut(before, db.rows, sid);
      credentials := Credentials(Issue(config, id, sid, jti, now), token, Account(id, username, sid));
    }

    /** The password is right: rehash if need be, forget the failures, open a session. */
    method Succeed(
        db: Database, normalized: string, id: Id, password: string, sid: Id, token: Token, jti: string, now: Instant)
        returns (credentials: Credentials)
      requires failedLogins.Valid() && id in db.rows.users
      modifies db, failedLogins`failures, failedLogins`history
      ensures failedLogins.Valid() && failedLogins.history == old(failedLogins.history) - {normalized}
      ensures (db.rows, credentials) == Accounts.OpenSession(
                config, Rehashed(config, old(db.rows), id, password, now), id, sid, token, jti, now)
    {
      db.rows := Rehashed(config, db.rows, id, password, now);
      failedLogins.Reset(normalized);
      credentials := OpenSession(db, id, sid, token, jti, now);
    }

    method Conclude(
        db: Database, normalized: string, password: string, sid: Id, token: Token, jti: string, now: Instant,
        at: Instant)
      returns (result: Result<Credentials>)
      requires failedLogins.Valid() && at >= failedLogins.lastCall
      modifies db, failedLogins`failures, failedLogins`history, failedLogins`lastCall
      ensures failedLogins.Valid() && at >= failedLogins.lastCall
      ensures (db.rows, result) == Admit(config, old(db.rows), normalized, password, sid, token, jti, now)
      ensures failedLogins.history == Remembered(old(failedLogins.history), normalized, result, at)
      ensures result == Err(MultipleResults) ==> failedLogins.lastCall == old(failedLogins.lastCall)
    {
      ghost var proved := Prove(config, db.rows, normalized, password);
      var users := new UserRepository(db);
      var found := users.GetByNormalizedUsername(normalized);
      match found {
        case Nothing =>
          assert proved == Err(UnknownAccount);
          RecordFailure(normalized, at);
          return Err(UnknownAccount);
        case Multiple =>
          return Err(MultipleResults);
        case One(id) =>
          var user := db.rows.users[id];
          if !Matches(config, user.password, password) {
            assert proved == Err(PasswordMismatch);
            RecordFailure(normalized, at);
            return Err(PasswordMismatch);
          }
          if !user.active {
            assert proved == Err(AccountDisabled);
            RecordFailure(normalized, at);
            return Err(AccountDisabled);
          }
          assert proved == Ok(id);
          var credentials := Succeed(db, normalized, id, password, sid, token, jti, now);
          return Ok(credentials);
      }
    }

    /** The rest of `login`: the account's rows, the tracker and the protocol change together. */
    method FinishLogin(
        db: Database, normalized: string, password: string, sid: Id, token: Token, jti: string, now: Instant,
        at: Instant, ghost attempt: LoginProtocol.Attempt, ghost s: LoginProtocol.State)
        returns (result: Result<Credentials>, ghost s': LoginProtocol.State)
      requires failedLogins.Valid() && InStep(failedLogins, s) && at >= s.now
      requires attempt in s.inFlight && s.inFlight[attempt] == normalized
      modifies db, failedLogins`failures, failedLogins`history, failedLogins`lastCall
      ensures failedLogins.Valid() && InStep(failedLogins, s')
      ensures (db.rows, result) == Admit(config, old(db.rows), normalized, password, sid, token, jti, now)
      ensures s' == LoginProtocol.Apply(Policy(), s, OutcomeEvent(attempt, result, at))
    {
      result := Conclude(db, normalized, password, sid, token, jti, now, at);
      OutcomesFollowTheProtocol(Policy(), s, attempt, result, at);
      s' := LoginProtocol.Apply(Policy(), s, OutcomeEvent(attempt, result, at));
    }

    method ResolveAccessToken(db: Database, token: AccessToken, now: Instant) returns (result: Result<Account>)
      ensures result == Resolve(db.rows, token, now)
    {
      var decoded := Decode(token, now);
      if decoded.Err? {
        return Err(decoded.failure);
      }
      var claims := decoded.value;
      var sessions := new SessionRepository(db);
      var users := new UserRepository(db);
      var row := sessions.Get(claims.sid);
      if row.None? {
        return Err(SessionUnknown);
      }
      if !row.value.Usable(now) {
        return Err(if row.value.revokedAt.Some? then SessionRevoked else SessionExpired);
      }
      var user := users.GetById(claims.sub);
      if user.None? {
        return Err(AccountGone);
      }
      if !user.value.active {
        return Err(AccountUnavailable);
      }
      if row.value.userId != claims.sub {
        return Err(SessionUserMismatch);
      }
      return Ok(Account(claims.sub, user.value.username, claims.sid));
    }

    /** `refresh` up to the rotation. */
    method BeginRefresh(db: Database, presented: Token, now: Instant) returns (result: Result<Redemption>)
      ensures result == Accounts.BeginRefresh(db.rows, presented, now)
    {
      var sessions := new SessionRepository(db);
      var users := new UserRepository(db);
      var found := sessions.GetByRefreshHash(Sha256(presented));
      match found {
        case Nothing => return Err(SessionUnknown);
        case Multiple => return Err(MultipleResults);
        case One(sid) =>
          var row := db.rows.sessions[sid];
          if !row.Usable(now) {
            return Err(if row.revokedAt.Some? then SessionRevoked else SessionExpired);
          }
          var user := users.GetById(row.userId);
          if user.None? || !user.value.active {
            return Err(AccountUnavailable);
          }
          return Ok(Redemption(presented, sid, now, Account(row.userId, user.value.username, sid)));
      }
    }

    /** The rest of `refresh`. */
    method FinishRefresh(db: Database, r: Redemption, token: Token, jti: string) returns (result: Result<Credentials>)
      modifies db
      ensures (db.rows, result) == Accounts.FinishRefresh(config, old(db.rows), r, token, jti)
    {
      if r.sid !in db.rows.sessions {
        return Err(StaleRow);
      }
      ghost var before := db.rows;
      var sessions := new SessionRepository(db);
      sessions.RotateRefreshToken(r.sid, Sha256(token), r.now + config.refreshTtl);
      OnlySessionIsPut(before, db.rows, r.sid);
      return Ok(Credentials(Issue(config, r.owner.userId, r.sid, jti, r.now), token, r.owner));
    }

    method Refresh(
        db: Database, presented: Token, token: Token, jti: string, now: Instant)
        returns (result: Result<Credentials>)
      modifies db
      ensures (db.rows, result) == Accounts.Refresh(config, old(db.rows), presented, token, jti, now)
    {
      var begun := BeginRefresh(db, presented, now);
      if begun.Err? {
        return Err(begun.failure);
      }
      result := FinishRefresh(db, begun.value, token, jti);
    }

    method Logout(db: Database, sid: Id, now: Instant)
      modifies db
      ensures db.rows == Accounts.Logout(old(db.rows), sid, now)
    {
      var sessions := new SessionRepository(db);
      var row := sessions.Get(sid);
      if row.None? {
        return;
      }
      ghost var before := db.rows;
      sessions.Revoke(sid, now);
      OnlySessionIsPut(before, db.rows, sid);
    }

    method DeleteAccount(db: Database, userId: Id, password: string, now: Instant) returns (result: Result<()>)
      modifies db
      ensures (db.rows, result) == Accounts.DeleteAccount(config, old(db.rows), userId, password, now)
    {
      var users := new UserRepository(db);
      var sessions := new SessionRepository(db);
      var user := users.GetById(userId);
      if user.None? {
        return Err(AccountGone);
      }
      if !Matches(config, user.value.password, password) {
        return Err(ReauthenticationFailed);
      }
      ghost var before := db.rows;
      var _ := sessions.RevokeAllForUser(userId, now);
      ghost var revoked := db.rows;
      RevokedIsRevokeAll(before, revoked, userId, now);
      users.Delete(userId);
      GoneIsDeleted(revoked, db.rows, userId);
      return Ok(());
    }
  }
}
