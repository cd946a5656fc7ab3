/** What each call of the account service answers and does, in terms of the rows and the configuration. */
module AccountOutcomes {
  import opened Prelude
  import opened Accounts
  import opened AccountRuns
  import AccountTheorems

  // ---------------------------------------------------------------- registration

  /** A registration succeeds exactly for an acceptable name in nobody's use and a permitted password. It
      adds an active account under the name as typed but for blanks, and nothing else. */
  lemma RegistersExactly(c: Config, db: Db, id: Id, username: string, password: string, now: Instant)
    ensures var (after, result) := Accounts.Register(c, db, id, username, password, now);
            var valid := c.unicode.Validate(username).Some?;
            && (result.Ok? <==>
                  && valid && c.permitted(password) && id !in db.users
                  && forall u | u in db.users :: db.users[u].normalized != c.unicode.fold(username))
            && (result == Err(InvalidUsername) <==> !valid)
            && (result == Err(InvalidPassword) <==> valid && !c.permitted(password))
            && (result.Err? ==>
                  result.failure in {InvalidUsername, InvalidPassword, IdentifierTaken} && after == db)
            && (result.Ok? ==>
                  && id in after.users && after.users[id] == result.value
                  && OnlyUser(db, after, id) && after.sessions == db.sessions
                  && result.value.username == c.unicode.strip(username)
                  && result.value.normalized == c.unicode.fold(username)
                  && result.value.password.password == c.nfkc(password) && result.value.password.cost == c.cost
                  && result.value.active && result.value.createdAt == now && result.value.updatedAt == now)
  {
    var normalized := c.unicode.fold(username);
    if u :| u in db.users && db.users[u].normalized == normalized {
      assert u in Named(db, normalized);
    }
  }

  // ---------------------------------------------------------------- login

  /** The user has the name and the password, whatever the cost the password was hashed with. */
  ghost predicate Knows(c: Config, db: Db, u: Id, username: string, password: string) {
    && u in db.users && db.users[u].normalized == c.unicode.fold(username)
    && db.users[u].password.password == c.nfkc(password)
  }

  lemma ProvesExactly(c: Config, w: World, username: string, password: string)
    requires Reachable(c, w)
    ensures var result, name := Prove(c, w.db, c.unicode.fold(username), password), c.unicode.fold(username);
            && (forall u :: result == Ok(u) <==> Knows(c, w.db, u, username, password) && w.db.users[u].active)
            && (result == Err(UnknownAccount) <==> forall u | u in w.db.users :: w.db.users[u].normalized != name)
            && (result == Err(AccountDisabled) <==>
                  exists u :: Knows(c, w.db, u, username, password) && !w.db.users[u].active)
            && (result.Err? ==> result.failure in {UnknownAccount, PasswordMismatch, AccountDisabled})
  {
    ReachableIsSound(c, w);
    AccountTheorems.LookupsAreUnique(c, w, c.unicode.fold(username), "");
    var found := Named(w.db, c.unicode.fold(username));
    forall u | u in w.db.users && w.db.users[u].normalized == c.unicode.fold(username) ensures found == {u} {
      assert u in found;
    }
  }

  /** A login succeeds exactly for an acceptable name that is not blocked, of an active account with this
      password; every other is refused for its reason and changes nothing. */
  lemma LogsInExactly(
      c: Config, w: World, username: string, password: string, blocked: bool, sid: Id, token: Token, jti: string,
      now: Instant)
    requires Reachable(c, w)
    ensures var (after, result) := Accounts.Login(c, w.db, username, password, blocked, sid, token, jti, now);
            var valid := c.unicode.Validate(username).Some?;
            && (result.Ok? <==>
                  valid && !blocked && exists u :: Knows(c, w.db, u, username, password) && w.db.users[u].active)
            && (result == Err(MalformedIdentifier) <==> !valid)
            && (result == Err(ThresholdReached) <==> valid && blocked)
            && (result == Err(UnknownAccount) <==>
                  valid && !blocked
                  && forall u | u in w.db.users :: w.db.users[u].normalized != c.unicode.fold(username))
            && (result == Err(AccountDisabled) <==>
                  valid && !blocked && exists u :: Knows(c, w.db, u, username, password) && !w.db.users[u].active)
            && (result.Err? ==> after == w.db)
            && (result.Err? ==>
                  result.failure in
                    {MalformedIdentifier, ThresholdReached, UnknownAccount, PasswordMismatch, AccountDisabled})
  {
    ProvesExactly(c, w, username, password);
    var proved := Prove(c, w.db, c.unicode.fold(username), password);
    if u :| Knows(c, w.db, u, username, password) && w.db.users[u].active {
      assert proved == Ok(u);
    }
  }

  /** What a successful login does: it opens the session it was given an id for, and brings the stored
      password's hash up to date. */
  lemma LoginOpens(
      c: Config, w: World, username: string, password: string, blocked: bool, sid: Id, token: Token, jti: string,
      now: Instant)
    requires Reachable(c, w) && sid !in w.db.sessions
    requires Accounts.Login(c, w.db, username, password, blocked, sid, token, jti, now).1.Ok?
    ensures var (after, result) := Accounts.Login(c, w.db, username, password, blocked, sid, token, jti, now);
            var u := result.value.identity.userId;
            && Knows(c, w.db, u, username, password) && w.db.users[u].active
            && result.value.identity == Account(u, w.db.users[u].username, sid) && result.value.refresh == token
            && OnlySession(w.db, after, sid)
            && after.sessions[sid] == Session(u, Sha256(token), now, now + c.refreshTtl, None)
            && OnlyUser(w.db, after, u)
            && var row, row' := w.db.users[u], after.users[u];
               && row' == row.(password := row'.password, updatedAt := row'.updatedAt)
               && row'.password.password == c.nfkc(password) && row'.password.cost == c.cost
               && row'.updatedAt == if row.password.cost == c.cost then row.updatedAt else now
  {
    ProvesExactly(c, w, username, password);
  }

  // ---------------------------------------------------------------- refresh

  /** The token is the one most recently granted to this stored session. */
  ghost predicate Newest(w: World, token: Token, sid: Id) {
    sid in w.db.sessions && Latest(w.grants, sid) == Some(token)
  }

  /** The token may be exchanged now: it is the newest of a session neither revoked nor expired, and the
      account is active. */
  ghost predicate Redeemable(w: World, token: Token, sid: Id, now: Instant) {
    && Newest(w, token, sid) && w.db.sessions[sid].revokedAt == None && w.db.sessions[sid].expiresAt > now
    && w.db.sessions[sid].userId in w.db.users && w.db.users[w.db.sessions[sid].userId].active
  }

  /** Why a refresh token is refused. */
  lemma RedeemsExactly(w: World, token: Token, now: Instant)
    requires GrantsDistinct(w.grants) && Current(w) && Owned(w.db)
    ensures var result := Redeem(w.db, token, now);
            && (forall sid :: result == Ok(sid) <==> Redeemable(w, token, sid, now))
            && (result == Err(SessionUnknown) <==> forall s :: !Newest(w, token, s))
            && (result == Err(SessionRevoked) <==>
                  exists s :: Newest(w, token, s) && w.db.sessions[s].revokedAt.Some?)
            && (result.Err? ==>
                  result.failure in {SessionUnknown, SessionRevoked, SessionExpired, AccountUnavailable})
            && (result == Err(SessionExpired) <==>
                  exists s :: Newest(w, token, s)
                              && w.db.sessions[s].revokedAt.None? && w.db.sessions[s].expiresAt <= now)
  {
    forall sid ensures Scalar(WithHash(w.db, Sha256(token))) == One(sid) <==> Newest(w, token, sid) {
      LookupFindsLatest(w, token, sid);
    }
    LookupFindsLatest(w, token, "");
    var found := WithHash(w.db, Sha256(token));
    if s :| Newest(w, token, s) {
      assert Scalar(found) == One(s);
    }
  }

  /** What a rotation does, to the row as it is by then: a new hash, and a life that begins anew at the lookup. */
  lemma RefreshRotates(c: Config, db: Db, r: Redemption, next: Token, jti: string)
    ensures var (after, result) := Accounts.FinishRefresh(c, db, r, next, jti);
            && (result.Ok? <==> r.sid in db.sessions)
            && (result.Err? ==> result == Err(StaleRow) && after == db)
            && (result.Ok? ==>
                  && after.users == db.users && OnlySession(db, after, r.sid)
                  && after.sessions[r.sid]
                     == Session(db.sessions[r.sid].userId, Sha256(next), db.sessions[r.sid].createdAt,
                                r.now + c.refreshTtl, db.sessions[r.sid].revokedAt)
                  && result.value.refresh == next && result.value.identity == r.owner)
  {
  }

  // ---------------------------------------------------------------- how long credentials live

  /** Whatever the database, the access token issued at `now` is refused as expired from the end of its
      configured life on, and as invalid exactly before the second it was issued in. */
  ghost predicate ExpiresWith(c: Config, access: AccessToken, now: Instant) {
    && (forall db, later | later >= now + c.accessTtl && later >= now ::
          Resolve(db, access, later) == Err(TokenExpired))
    && (forall db, t :: Resolve(db, access, t) == Err(TokenInvalid) <==> t < now.Floor as real)
  }

  lemma LoginExpires(
      c: Config, db: Db, username: string, password: string, blocked: bool, sid: Id, token: Token, jti: string,
      now: Instant)
    requires Accounts.Login(c, db, username, password, blocked, sid, token, jti, now).1.Ok?
    ensures ExpiresWith(c, Accounts.Login(c, db, username, password, blocked, sid, token, jti, now).1.value.access, now)
  {
  }

  lemma RefreshExpires(c: Config, db: Db, r: Redemption, next: Token, jti: string)
    requires Accounts.FinishRefresh(c, db, r, next, jti).1.Ok?
    ensures ExpiresWith(c, Accounts.FinishRefresh(c, db, r, next, jti).1.value.access, r.now)
  {
  }

  /** The session is as it is left by a login or a refresh at `now`. */
  ghost predicate JustIssued(c: Config, db: Db, u: Id, sid: Id, token: Token, now: Instant) {
    && sid in db.sessions && u in db.users && db.users[u].active
    && db.sessions[sid].userId == u && db.sessions[sid].refreshHash == Sha256(token)
    && db.sessions[sid].revokedAt == None && db.sessions[sid].expiresAt == now + c.refreshTtl
    && forall s | s in db.sessions && s != sid :: db.sessions[s].refreshHash != Sha256(token)
  }

  /** From `now` on, while nothing else happens, the access token resolves exactly until the second in which
      its configured life ends, and the refresh token is accepted exactly until the session's ends. */
  ghost predicate LiveExactly(c: Config, db: Db, access: AccessToken, token: Token, identity: Account, now: Instant) {
    forall later | later >= now ::
      && (Resolve(db, access, later).Ok? <==>
            later < (now + c.accessTtl).Floor as real && later < now + c.refreshTtl)
      && (Resolve(db, access, later).Ok? ==> Resolve(db, access, later) == Ok(identity))
      && (Redeem(db, token, later) == Ok(identity.sessionId) <==> later < now + c.refreshTtl)
  }

  lemma JustIssuedIsLive(c: Config, db: Db, u: Id, sid: Id, token: Token, jti: string, now: Instant)
    requires JustIssued(c, db, u, sid, token, now)
    ensures LiveExactly(c, db, Issue(c, u, sid, jti, now), token, Account(u, db.users[u].username, sid), now)
  {
    assert WithHash(db, Sha256(token)) == {sid};
  }

  lemma UnusedHash(w: World, token: Token)
    requires Current(w) && NewToken(w, token)
    ensures forall s | s in w.db.sessions :: w.db.sessions[s].refreshHash != Sha256(token)
  {
    forall s | s in w.db.sessions ensures w.db.sessions[s].refreshHash != Sha256(token) {
      LatestIsGranted(w.grants, s);
    }
  }

  /** Both tokens of a successful login live exactly as long as the configuration says. */
  lemma LoginLivesExactly(
      c: Config, w: World, username: string, password: string, blocked: bool, sid: Id, token: Token, jti: string,
      now: Instant)
    requires Reachable(c, w) && sid !in w.sessionIds && NewToken(w, token)
    requires Accounts.Login(c, w.db, username, password, blocked, sid, token, jti, now).1.Ok?
    ensures var (after, result) := Accounts.Login(c, w.db, username, password, blocked, sid, token, jti, now);
            LiveExactly(c, after, result.value.access, token, result.value.identity, now)
  {
    ReachableIsSound(c, w);
    LoginOpens(c, w, username, password, blocked, sid, token, jti, now);
    UnusedHash(w, token);
    var (after, result) := Accounts.Login(c, w.db, username, password, blocked, sid, token, jti, now);
    JustIssuedIsLive(c, after, result.value.identity.userId, sid, token, jti, now);
  }

  /** So do both tokens of a successful refresh. */
  lemma RefreshLivesExactly(c: Config, w: World, presented: Token, token: Token, jti: string, now: Instant)
    requires Reachable(c, w) && NewToken(w, token)
    requires Accounts.Refresh(c, w.db, presented, token, jti, now).1.Ok?
    ensures var (after, result) := Accounts.Refresh(c, w.db, presented, token, jti, now);
            LiveExactly(c, after, result.value.access, token, result.value.identity, now)
  {
    ReachableIsSound(c, w);
    RedeemsExactly(w, presented, now);
    UnusedHash(w, token);
    var (after, result) := Accounts.Refresh(c, w.db, presented, token, jti, now);
    JustIssuedIsLive(c, after, result.value.identity.userId, result.value.identity.sessionId, token, jti, now);
  }

  // ---------------------------------------------------------------- logout and deletion

  /** A logout revokes its session, unless it was revoked before, and changes nothing else. */
  lemma LogoutRevokes(db: Db, sid: Id, now: Instant)
    ensures var after := Accounts.Logout(db, sid, now);
            && after.users == db.users
            && (forall s :: s in after.sessions <==> s in db.sessions)
            && (forall s | s in db.sessions && s != sid :: after.sessions[s] == db.sessions[s])
            && (sid in db.sessions ==>
                  && after.sessions[sid] == db.sessions[sid].(revokedAt := after.sessions[sid].revokedAt)
                  && after.sessions[sid].revokedAt
                     == if db.sessions[sid].revokedAt.Some? then db.sessions[sid].revokedAt else Some(now))
  {
  }

  /** An account is deleted exactly if it exists and the password given is its own. */
  lemma DeletesExactly(c: Config, db: Db, userId: Id, password: string, now: Instant)
    ensures var (after, result) := DeleteAccount(c, db, userId, password, now);
            && (result.Ok? <==> userId in db.users && db.users[userId].password.password == c.nfkc(password))
            && (result == Err(AccountGone) <==> userId !in db.users)
            && (result.Err? ==> after == db && result.failure in {AccountGone, ReauthenticationFailed})
  {
  }

  // ---------------------------------------------------------------- access tokens

  /** Why an access token signed by the service is refused, in the order of the checks. */
  lemma RefusesExactly(c: Config, w: World, claims: Claims, now: Instant)
    requires Reachable(c, w) && claims in w.claims
    ensures var result := Resolve(w.db, Signed(claims), now);
            var current := claims.iat as real <= now && now < claims.exp as real;
            && (result == Err(TokenInvalid) <==> claims.iat as real > now)
            && (result == Err(TokenExpired) <==> claims.iat as real <= now && claims.exp as real <= now)
            && (result == Err(SessionUnknown) <==> current && claims.sid !in w.db.sessions)
            && (result == Err(SessionRevoked) <==>
                  current && claims.sid in w.db.sessions && w.db.sessions[claims.sid].revokedAt.Some?)
            && (result == Err(SessionExpired) <==>
                  && current && claims.sid in w.db.sessions
                  && w.db.sessions[claims.sid].revokedAt.None? && w.db.sessions[claims.sid].expiresAt <= now)
            && (result.Err? ==>
                  result.failure in
                    {TokenInvalid, TokenExpired, SessionUnknown, SessionRevoked, SessionExpired, AccountUnavailable})
  {
    ReachableIsSound(c, w);
  }

  /** A token the service has not signed is refused. */
  lemma MalformedIsRefused(db: Db, now: Instant)
    ensures Resolve(db, Malformed, now) == Err(TokenInvalid)
  {
  }
}
