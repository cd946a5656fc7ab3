/**
 Accounts and authentication sessions as a value: the two tables with their queries
 (server/app/auth/models.py and repository.py) and each call of server/app/auth/service.py as one
 transaction. SHA-256 and Argon2id are symbolic, hence injective; fresh ids, tokens and the
 database clock are parameters.
 */
module Accounts {
  import opened Prelude
  import opened Identifiers

  type Id = string
  type Token = string

  datatype TokenHash = Sha256(token: Token)
  datatype PasswordHash = Argon2(cost: nat, password: string)

  datatype User = User(
    username: Identity, normalized: string, password: PasswordHash, active: bool,
    createdAt: Instant, updatedAt: Instant)

  datatype Session = Session(
    userId: Id, refreshHash: TokenHash, createdAt: Instant, expiresAt: Instant, revokedAt: Option<Instant>)
  {
    predicate Usable(now: Instant) {
      revokedAt.None? && expiresAt > now
    }
  }

  datatype Db = Db(users: map<Id, User>, sessions: map<Id, Session>)

  datatype Config = Config(
    unicode: Unicode,
    nfkc: string -> string,      // password normalization
    permitted: string -> bool,   // password policy
    cost: nat,                   // Argon2 parameters
    accessTtl: real,
    refreshTtl: real)

  datatype Claims = Claims(sub: Id, sid: Id, jti: string, iat: int, exp: int)

  /** A token that fails signature, issuer, audience, type or shape checks is Malformed. */
  datatype AccessToken = Signed(claims: Claims) | Malformed

  datatype Credentials = Credentials(access: AccessToken, refresh: Token, identity: Account)

  /** A refresh whose token has been looked up and whose session has not been rotated yet. */
  datatype Redemption = Redemption(presented: Token, sid: Id, now: Instant, owner: Account)

  /** The internal reasons of AuthError, and the ORM's MultipleResultsFound and StaleDataError. */
  datatype Failure =
    | InvalidUsername | InvalidPassword | IdentifierTaken
    | MalformedIdentifier | ThresholdReached | UnknownAccount | PasswordMismatch | AccountDisabled
    | TokenInvalid | TokenExpired
    | SessionUnknown | SessionRevoked | SessionExpired | AccountGone | AccountUnavailable | SessionUserMismatch
    | ReauthenticationFailed
    | MultipleResults | StaleRow

  datatype Result<+T> = Ok(value: T) | Err(failure: Failure)

  // ---------------------------------------------------------------- repository.py

  datatype Lookup = Nothing | One(id: Id) | Multiple

  lemma OnlyOne(ids: set<Id>, a: Id, b: Id)
    requires |ids| == 1 && a in ids && b in ids
    ensures a == b
  {
    assert |ids - {a}| == 0;
    assert b !in ids - {a};
  }

  function TheOne(ids: set<Id>): (r: Id)
    requires |ids| == 1
    ensures ids == {r}
  {
    assert ids != {};
    assert forall a, b | a in ids && b in ids :: a == b by {
      forall a, b | a in ids && b in ids ensures a == b { OnlyOne(ids, a, b); }
    }
    var id :| id in ids;
    id
  }

  /** scalar_one_or_none. */
  function Scalar(ids: set<Id>): Lookup {
    if ids == {} then Nothing else if |ids| == 1 then One(TheOne(ids)) else Multiple
  }

  function Named(db: Db, normalized: string): set<Id> {
    set u | u in db.users && db.users[u].normalized == normalized
  }

  function WithHash(db: Db, hash: TokenHash): set<Id> {
    set s | s in db.sessions && db.sessions[s].refreshHash == hash
  }

  /** The primary key and the unique constraint on the normalized name. */
  predicate MayInsert(db: Db, id: Id, normalized: string) {
    id !in db.users && Named(db, normalized) == {}
  }

  /** The user's row is the only one that may differ, and exists afterwards. */
  ghost predicate OnlyUser(before: Db, after: Db, id: Id) {
    && (forall u :: u in after.users <==> u in before.users || u == id)
    && (forall u | u in before.users && u != id :: after.users[u] == before.users[u])
  }

  /** The session's row is the only one that may differ, and exists afterwards. */
  ghost predicate OnlySession(before: Db, after: Db, sid: Id) {
    && (forall s :: s in after.sessions <==> s in before.sessions || s == sid)
    && (forall s | s in before.sessions && s != sid :: after.sessions[s] == before.sessions[s])
  }

  function PutSession(db: Db, sid: Id, session: Session): Db {
    db.(sessions := db.sessions[sid := session])
  }

  function Revoked(session: Session, now: Instant): Session {
    if session.revokedAt.None? then session.(revokedAt := Some(now)) else session
  }

  function RevokeAllFor(db: Db, userId: Id, now: Instant): Db {
    db.(sessions := map s | s in db.sessions ::
          if db.sessions[s].userId == userId then Revoked(db.sessions[s], now) else db.sessions[s])
  }

  /** Deleting an account removes its sessions by cascade. */
  function DeleteUser(db: Db, userId: Id): Db {
    Db(db.users - {userId}, map s | s in db.sessions && db.sessions[s].userId != userId :: db.sessions[s])
  }

  // ---------------------------------------------------------------- service.py

  function Hashed(c: Config, password: string): PasswordHash {
    Argon2(c.cost, c.nfkc(password))
  }

  predicate Matches(c: Config, hash: PasswordHash, password: string) {
    hash.password == c.nfkc(password)
  }

  function Register(c: Config, db: Db, id: Id, username: string, password: string, now: Instant): (Db, Result<User>) {
    match c.unicode.Validate(username)
    case None => (db, Err(InvalidUsername))
    case Some(normalized) =>
      if !c.permitted(password) then (db, Err(InvalidPassword))
      else if !MayInsert(db, id, normalized) then (db, Err(IdentifierTaken))
      else
        var user := User(c.unicode.strip(username), normalized, Hashed(c, password), true, now, now);
        (db.(users := db.users[id := user]), Ok(user))
  }

  function Issue(c: Config, userId: Id, sid: Id, jti: string, now: Instant): AccessToken {
    Signed(Claims(userId, sid, jti, now.Floor, (now + c.accessTtl).Floor))
  }

  /** The account a login's credentials prove, or why they do not. */
  function Prove(c: Config, db: Db, normalized: string, password: string): Result<Id> {
    match Scalar(Named(db, normalized))
    case Nothing => Err(UnknownAccount)
    case Multiple => Err(MultipleResults)
    case One(id) =>
      if !Matches(c, db.users[id].password, password) then Err(PasswordMismatch)
      else if !db.users[id].active then Err(AccountDisabled)
      else Ok(id)
  }

  function Rehash(c: Config, user: User, password: string, now: Instant): User {
    if user.password.cost != c.cost then user.(password := Hashed(c, password), updatedAt := now) else user
  }

  function Rehashed(c: Config, db: Db, id: Id, password: string, now: Instant): Db
    requires id in db.users
  {
    db.(users := db.users[id := Rehash(c, db.users[id], password, now)])
  }

  function OpenSession(c: Config, db: Db, id: Id, sid: Id, token: Token, jti: string, now: Instant): (Db, Credentials)
    requires id in db.users
  {
    (PutSession(db, sid, Session(id, Sha256(token), now, now + c.refreshTtl, None)),
     Credentials(Issue(c, id, sid, jti, now), token, Account(id, db.users[id].username, sid)))
  }

  /** A login once its identifier is well-formed and not blocked. */
  function Admit(
      c: Config, db: Db, normalized: string, password: string, sid: Id, token: Token, jti: string, now: Instant)
    : (Db, Result<Credentials>)
  {
    match Prove(c, db, normalized, password)
    case Err(failure) => (db, Err(failure))
    case Ok(id) =>
      var (after, credentials) := OpenSession(c, Rehashed(c, db, id, password, now), id, sid, token, jti, now);
      (after, Ok(credentials))
  }

  function Login(
      c: Config, db: Db, username: string, password: string, blocked: bool, sid: Id, token: Token, jti: string,
      now: Instant)
    : (Db, Result<Credentials>)
  {
    match c.unicode.Validate(username)
    case None => (db, Err(MalformedIdentifier))
    case Some(normalized) =>
      if blocked then (db, Err(ThresholdReached))
      else Admit(c, db, normalized, password, sid, token, jti, now)
  }

  /** A token issued in the future is invalid; otherwise its expiry decides. */
  function Decode(token: AccessToken, now: Instant): Result<Claims> {
    match token
    case Malformed => Err(TokenInvalid)
    case Signed(claims) =>
      if claims.iat as real > now then Err(TokenInvalid)
      else if now >= claims.exp as real then Err(TokenExpired)
      else Ok(claims)
  }

  function Unusable(session: Session): Failure {
    if session.revokedAt.Some? then SessionRevoked else SessionExpired
  }

  function Resolve(db: Db, token: AccessToken, now: Instant): Result<Account> {
    match Decode(token, now)
    case Err(failure) => Err(failure)
    case Ok(claims) =>
      if claims.sid !in db.sessions then Err(SessionUnknown)
      else if !db.sessions[claims.sid].Usable(now) then Err(Unusable(db.sessions[claims.sid]))
      else if claims.sub !in db.users then Err(AccountGone)
      else if !db.users[claims.sub].active then Err(AccountUnavailable)
      else if db.sessions[claims.sid].userId != claims.sub then Err(SessionUserMismatch)
      else Ok(Account(claims.sub, db.users[claims.sub].username, claims.sid))
  }

  /** The session a refresh token may be exchanged for, or why it may not. */
  function Redeem(db: Db, token: Token, now: Instant): Result<Id> {
    match Scalar(WithHash(db, Sha256(token)))
    case Nothing => Err(SessionUnknown)
    case Multiple => Err(MultipleResults)
    case One(sid) =>
      var session := db.sessions[sid];
      if !session.Usable(now) then Err(Unusable(session))
      else if session.userId !in db.users || !db.users[session.userId].active then Err(AccountUnavailable)
      else Ok(sid)
  }

  function Rotated(c: Config, session: Session, token: Token, now: Instant): Session {
    session.(refreshHash := Sha256(token), expiresAt := now + c.refreshTtl)
  }

  /** A refresh up to the rotation. */
  function BeginRefresh(db: Db, presented: Token, now: Instant): Result<Redemption> {
    match Redeem(db, presented, now)
    case Err(failure) => Err(failure)
    case Ok(sid) =>
      var userId := db.sessions[sid].userId;
      Ok(Redemption(presented, sid, now, Account(userId, db.users[userId].username, sid)))
  }

  /** The rotation writes hash and expiry of the row as it is by then; a row deleted meanwhile is an error. */
  function FinishRefresh(c: Config, db: Db, r: Redemption, next: Token, jti: string): (Db, Result<Credentials>) {
    if r.sid !in db.sessions then (db, Err(StaleRow))
    else
      (PutSession(db, r.sid, Rotated(c, db.sessions[r.sid], next, r.now)),
       Ok(Credentials(Issue(c, r.owner.userId, r.sid, jti, r.now), next, r.owner)))
  }

  /** Both with nothing in between. */
  function Refresh(
      c: Config, db: Db, presented: Token, next: Token, jti: string, now: Instant)
      : (Db, Result<Credentials>)
  {
    match BeginRefresh(db, presented, now)
    case Err(failure) => (db, Err(failure))
    case Ok(redemption) => FinishRefresh(c, db, redemption, next, jti)
  }

  function Logout(db: Db, sid: Id, now: Instant): Db {
    if sid in db.sessions then PutSession(db, sid, Revoked(db.sessions[sid], now)) else db
  }

  function DeleteAccount(c: Config, db: Db, userId: Id, password: string, now: Instant): (Db, Result<()>) {
    if userId !in db.users then (db, Err(AccountGone))
    else if !Matches(c, db.users[userId].password, password) then (db, Err(ReauthenticationFailed))
    else (DeleteUser(RevokeAllFor(db, userId, now), userId), Ok(()))
  }
}
