/** Every sequence of service calls over the account database, and what all of them keep. */
module AccountRuns {
  import opened Prelude
  import opened Accounts

  /** A refresh token handed out for a session. */
  datatype Grant = Grant(token: Token, sid: Id)

  type Attempt = nat

  /** The database, and what has happened to it: no branch reads the rest. A refresh is two events, the
      lookup and the rotation, with anything in between; every other call is one. */
  datatype World = World(
    db: Db,
    userIds: set<Id>,                // every account id ever used
    sessionIds: set<Id>,             // every session id ever used
    grants: seq<Grant>,              // every refresh token ever issued, oldest first
    begun: map<Attempt, Redemption>, // every refresh whose lookup succeeded
    inFlight: set<Attempt>,          // those not yet rotated or abandoned
    spent: seq<Attempt>,             // those whose rotation succeeded, oldest first
    claims: set<Claims>)             // the claims of every access token ever signed

  const START := World(Db(map[], map[]), {}, {}, [], map[], {}, [], {})

  datatype Event =
    | Register(id: Id, username: string, password: string, now: Instant)
    | Login(username: string, password: string, blocked: bool, sid: Id, token: Token, jti: string, now: Instant)
    | BeginRefresh(attempt: Attempt, presented: Token, now: Instant)
    | FinishRefresh(attempt: Attempt, token: Token, jti: string)
    | AbandonRefresh(attempt: Attempt)
    | Logout(sid: Id, now: Instant)
    | Delete(userId: Id, password: string, now: Instant)
    | SetActive(userId: Id, active: bool) // an operator's change of the account's status

  predicate NewToken(w: World, token: Token) {
    forall g | g in w.grants :: g.token != token
  }

  /** Ids and tokens drawn by the service are fresh. */
  predicate Enabled(w: World, e: Event) {
    match e
    case Register(id, _, _, _) => id !in w.userIds
    case Login(_, _, _, sid, token, _, _) => sid !in w.sessionIds && NewToken(w, token)
    case BeginRefresh(attempt, _, _) => attempt !in w.begun
    case FinishRefresh(attempt, token, _) => attempt in w.inFlight && attempt in w.begun && NewToken(w, token)
    case AbandonRefresh(attempt) => attempt in w.inFlight
    case _ => true
  }

  function Granted(w: World, db: Db, credentials: Credentials): World {
    w.(db := db,
       sessionIds := w.sessionIds + {credentials.identity.sessionId},
       grants := w.grants + [Grant(credentials.refresh, credentials.identity.sessionId)],
       claims := if credentials.access.Signed? then w.claims + {credentials.access.claims} else w.claims)
  }

  function Begun(w: World, attempt: Attempt, presented: Token, now: Instant): World {
    match Accounts.BeginRefresh(w.db, presented, now)
    case Err(_) => w
    case Ok(r) => w.(begun := w.begun[attempt := r], inFlight := w.inFlight + {attempt})
  }

  function Finished(c: Config, w: World, attempt: Attempt, token: Token, jti: string): World
    requires attempt in w.begun
  {
    var landed := w.(inFlight := w.inFlight - {attempt});
    var (db, result) := Accounts.FinishRefresh(c, w.db, w.begun[attempt], token, jti);
    if result.Ok? then Granted(landed, db, result.value).(spent := w.spent + [attempt]) else landed
  }

  function Effect(c: Config, w: World, e: Event): World
    requires Enabled(w, e)
  {
    match e
    case Register(id, username, password, now) =>
      w.(db := Accounts.Register(c, w.db, id, username, password, now).0, userIds := w.userIds + {id})
    case Login(username, password, blocked, sid, token, jti, now) =>
      var (db, result) := Accounts.Login(c, w.db, username, password, blocked, sid, token, jti, now);
      if result.Ok? then Granted(w, db, result.value) else w.(db := db)
    case BeginRefresh(attempt, presented, now) => Begun(w, attempt, presented, now)
    case FinishRefresh(attempt, token, jti) => Finished(c, w, attempt, token, jti)
    case AbandonRefresh(attempt) => w.(inFlight := w.inFlight - {attempt})
    case Logout(sid, now) => w.(db := Accounts.Logout(w.db, sid, now))
    case Delete(userId, password, now) => w.(db := DeleteAccount(c, w.db, userId, password, now).0)
    case SetActive(userId, active) =>
      if userId in w.db.users
      then w.(db := w.db.(users := w.db.users[userId := w.db.users[userId].(active := active)]))
      else w
  }

  function Apply(c: Config, w: World, e: Event): World {
    if Enabled(w, e) then Effect(c, w, e) else w
  }

  function Exec(c: Config, w: World, events: seq<Event>): World {
    if events == [] then w else Apply(c, Exec(c, w, events[..|events| - 1]), events[|events| - 1])
  }

  /** The newest refresh token of a session. */
  function Latest(grants: seq<Grant>, sid: Id): Option<Token> {
    if grants == [] then None
    else
      var g := grants[|grants| - 1];
      if g.sid == sid then Some(g.token) else Latest(grants[..|grants| - 1], sid)
  }

  // ---------------------------------------------------------------- invariants

  /** Usernames are unique in normalized form, and that is the form of the stored name. */
  ghost predicate NamesUnique(c: Config, db: Db) {
    && (forall u | u in db.users :: db.users[u].normalized == c.unicode.fold(db.users[u].username))
    && (forall u, v | u in db.users && v in db.users && db.users[u].normalized == db.users[v].normalized :: u == v)
  }

  ghost predicate Known(w: World) {
    && w.db.users.Keys <= w.userIds
    && w.db.sessions.Keys <= w.sessionIds
    && (forall g | g in w.grants :: g.sid in w.sessionIds)
    && (forall k | k in w.claims :: k.sid in w.sessionIds)
    && (forall a | a in w.begun :: w.begun[a].sid in w.sessionIds)
  }

  /** Each session belongs to an existing account. */
  ghost predicate Owned(db: Db) {
    forall s | s in db.sessions :: db.sessions[s].userId in db.users
  }

  /** It is the account its access tokens and its refreshes name. */
  ghost predicate Tied(w: World) {
    && (forall k | k in w.claims && k.sid in w.db.sessions :: w.db.sessions[k.sid].userId == k.sub)
    && (forall a | a in w.begun ::
          var r := w.begun[a];
          r.owner.sessionId == r.sid && (r.sid in w.db.sessions ==> w.db.sessions[r.sid].userId == r.owner.userId))
  }

  /** A refresh presents a token of its session, and is spent once and for all. */
  ghost predicate Flown(w: World) {
    && (forall a | a in w.inFlight :: a in w.begun)
    && (forall a | a in w.begun :: Grant(w.begun[a].presented, w.begun[a].sid) in w.grants)
    && (forall i | 0 <= i < |w.spent| :: w.spent[i] in w.begun && w.spent[i] !in w.inFlight)
    && (forall i, j | 0 <= i < j < |w.spent| :: w.spent[i] != w.spent[j])
  }

  ghost predicate GrantsDistinct(grants: seq<Grant>) {
    forall i, j | 0 <= i < j < |grants| :: grants[i].token != grants[j].token
  }

  /** The stored hash is that of the session's newest token. */
  ghost predicate Current(w: World) {
    forall s | s in w.db.sessions ::
      && Latest(w.grants, s).Some?
      && w.db.sessions[s].refreshHash == Sha256(Latest(w.grants, s).value)
  }

  /** The token was issued, and is not the newest of its session any more. */
  ghost predicate Replaced(grants: seq<Grant>, token: Token) {
    exists g :: g in grants && g.token == token && Latest(grants, g.sid) != Some(token)
  }

  /** An accepted token has been superseded. */
  ghost predicate Superseded(w: World) {
    forall a | a in w.spent && a in w.begun :: Replaced(w.grants, w.begun[a].presented)
  }

  ghost predicate Sound(c: Config, w: World) {
    && NamesUnique(c, w.db) && Known(w) && Owned(w.db) && Tied(w) && Flown(w)
    && GrantsDistinct(w.grants) && Current(w) && Superseded(w)
  }

  // ---------------------------------------------------------------- tokens

  lemma {:induction false} LatestIsGranted(grants: seq<Grant>, sid: Id)
    requires Latest(grants, sid).Some?
    ensures Grant(Latest(grants, sid).value, sid) in grants
  {
    var n := |grants| - 1;
    if grants[n].sid != sid {
      LatestIsGranted(grants[..n], sid);
    }
  }

  lemma SameGrant(grants: seq<Grant>, a: Grant, b: Grant)
    requires GrantsDistinct(grants) && a in grants && b in grants && a.token == b.token
    ensures a == b
  {
    var i :| 0 <= i < |grants| && grants[i] == a;
    var j :| 0 <= j < |grants| && grants[j] == b;
  }

  lemma LatestSnoc(grants: seq<Grant>, g: Grant, sid: Id)
    ensures Latest(grants + [g], sid) == if g.sid == sid then Some(g.token) else Latest(grants, sid)
  {
    assert (grants + [g])[..|grants|] == grants;
  }

  /** A stored hash determines the session: the column behaves as if it were unique. */
  lemma HashesUnique(w: World, s: Id, t: Id)
    requires GrantsDistinct(w.grants) && Current(w)
    requires s in w.db.sessions && t in w.db.sessions && w.db.sessions[s].refreshHash == w.db.sessions[t].refreshHash
    ensures s == t
  {
    LatestIsGranted(w.grants, s);
    LatestIsGranted(w.grants, t);
    SameGrant(w.grants, Grant(Latest(w.grants, s).value, s), Grant(Latest(w.grants, t).value, t));
  }

  /** Looking a token up finds exactly the session it is the newest token of. */
  lemma LookupFindsLatest(w: World, token: Token, sid: Id)
    requires GrantsDistinct(w.grants) && Current(w)
    ensures Scalar(WithHash(w.db, Sha256(token))) == One(sid) <==>
            sid in w.db.sessions && Latest(w.grants, sid) == Some(token)
    ensures Scalar(WithHash(w.db, Sha256(token))) != Multiple
  {
    var found := WithHash(w.db, Sha256(token));
    forall s | s in found ensures found == {s} {
      forall t | t in found ensures t == s {
        HashesUnique(w, s, t);
      }
    }
    if sid in w.db.sessions && Latest(w.grants, sid) == Some(token) {
      assert sid in found;
    }
    if found != {} {
      var s :| s in found;
      assert found == {s};
    }
  }

  // ---------------------------------------------------------------- every step keeps the invariants

  lemma RegisterKeepsNames(c: Config, db: Db, id: Id, username: string, password: string, now: Instant)
    requires c.unicode.Sound() && NamesUnique(c, db)
    ensures NamesUnique(c, Accounts.Register(c, db, id, username, password, now).0)
  {
    if c.unicode.Validate(username).Some? {
      var normalized := c.unicode.fold(username);
      assert c.unicode.fold(c.unicode.strip(username)) == normalized;
      assert Named(db, normalized) == {} ==> forall u | u in db.users :: u !in Named(db, normalized);
    }
  }

  lemma ApplyKeepsNames(c: Config, w: World, e: Event)
    requires c.unicode.Sound() && NamesUnique(c, w.db)
    ensures NamesUnique(c, Apply(c, w, e).db)
  {
    if Enabled(w, e) && e.Register? {
      RegisterKeepsNames(c, w.db, e.id, e.username, e.password, e.now);
    }
  }

  lemma ApplyKeepsKnown(c: Config, w: World, e: Event)
    requires Known(w) && Tied(w)
    ensures Known(Apply(c, w, e))
  {
  }

  lemma ApplyKeepsOwned(c: Config, w: World, e: Event)
    requires Owned(w.db)
    ensures Owned(Apply(c, w, e).db)
  {
  }

  lemma ApplyKeepsTied(c: Config, w: World, e: Event)
    requires Known(w) && Tied(w)
    ensures Tied(Apply(c, w, e))
  {
  }

  lemma ApplyKeepsDistinct(c: Config, w: World, e: Event)
    requires GrantsDistinct(w.grants)
    ensures GrantsDistinct(Apply(c, w, e).grants)
  {
  }

  lemma ApplyKeepsCurrent(c: Config, w: World, e: Event)
    requires Current(w) && Tied(w)
    ensures Current(Apply(c, w, e))
  {
  }

  lemma BeginKeepsFlown(w: World, attempt: Attempt, presented: Token, now: Instant)
    requires GrantsDistinct(w.grants) && Current(w) && Flown(w) && attempt !in w.begun
    ensures Flown(Begun(w, attempt, presented, now))
  {
    if Redeem(w.db, presented, now).Ok? {
      var sid := Redeem(w.db, presented, now).value;
      LookupFindsLatest(w, presented, sid);
      LatestIsGranted(w.grants, sid);
    }
  }

  lemma ApplyKeepsFlown(c: Config, w: World, e: Event)
    requires GrantsDistinct(w.grants) && Current(w) && Flown(w)
    ensures Flown(Apply(c, w, e))
  {
    if Enabled(w, e) && e.BeginRefresh? {
      BeginKeepsFlown(w, e.attempt, e.presented, e.now);
    }
  }

  lemma GrantKeepsReplaced(grants: seq<Grant>, g: Grant, token: Token)
    requires Replaced(grants, token) && forall h | h in grants :: h.token != g.token
    ensures Replaced(grants + [g], token)
  {
    var h :| h in grants && h.token == token && Latest(grants, h.sid) != Some(token);
    LatestSnoc(grants, g, h.sid);
    assert h in grants + [g];
  }

  /** The rotation replaces whatever token of the session was presented. */
  lemma RotationReplaces(grants: seq<Grant>, sid: Id, presented: Token, token: Token)
    requires Grant(presented, sid) in grants && forall h | h in grants :: h.token != token
    ensures Replaced(grants + [Grant(token, sid)], presented)
  {
    LatestSnoc(grants, Grant(token, sid), sid);
    assert Grant(presented, sid) in grants + [Grant(token, sid)];
  }

  /** The newest token of a session has not been accepted before. */
  lemma LatestIsUnspent(w: World, sid: Id, a: Attempt)
    requires GrantsDistinct(w.grants) && Superseded(w) && Latest(w.grants, sid).Some?
    requires a in w.spent && a in w.begun
    ensures w.begun[a].presented != Latest(w.grants, sid).value
  {
    var token := Latest(w.grants, sid).value;
    LatestIsGranted(w.grants, sid);
    var presented := w.begun[a].presented;
    assert Replaced(w.grants, presented);
    var g :| g in w.grants && g.token == presented && Latest(w.grants, g.sid) != Some(presented);
    if presented == token {
      SameGrant(w.grants, g, Grant(token, sid));
    }
  }

  lemma SupersededGrows(w: World, g: Grant)
    requires Superseded(w) && NewToken(w, g.token)
    ensures Superseded(w.(grants := w.grants + [g]))
  {
    forall a | a in w.spent && a in w.begun ensures Replaced(w.grants + [g], w.begun[a].presented) {
      assert Replaced(w.grants, w.begun[a].presented);
      GrantKeepsReplaced(w.grants, g, w.begun[a].presented);
    }
  }

  lemma FinishKeepsSuperseded(c: Config, w: World, attempt: Attempt, token: Token, jti: string)
    requires Enabled(w, FinishRefresh(attempt, token, jti)) && Flown(w) && Tied(w) && Superseded(w)
    ensures Superseded(Finished(c, w, attempt, token, jti))
  {
    var r := w.begun[attempt];
    SupersededGrows(w, Grant(token, r.sid));
    RotationReplaces(w.grants, r.sid, r.presented, token);
  }

  lemma LoginKeepsSuperseded(c: Config, w: World, e: Event)
    requires e.Login? && Enabled(w, e) && Superseded(w)
    ensures Superseded(Effect(c, w, e))
  {
    SupersededGrows(w, Grant(e.token, e.sid));
  }

  lemma BeginKeepsSuperseded(w: World, attempt: Attempt, presented: Token, now: Instant)
    requires attempt !in w.begun && Flown(w) && Superseded(w)
    ensures Superseded(Begun(w, attempt, presented, now))
  {
    assert forall a | a in w.spent :: a in w.begun;
  }

  lemma ApplyKeepsSuperseded(c: Config, w: World, e: Event)
    requires Flown(w) && Tied(w) && Superseded(w)
    ensures Superseded(Apply(c, w, e))
  {
    if Enabled(w, e) {
      if e.FinishRefresh? {
        FinishKeepsSuperseded(c, w, e.attempt, e.token, e.jti);
      } else if e.Login? {
        LoginKeepsSuperseded(c, w, e);
      } else if e.BeginRefresh? {
        BeginKeepsSuperseded(w, e.attempt, e.presented, e.now);
      }
    }
  }

  lemma ApplyKeepsSound(c: Config, w: World, e: Event)
    requires c.unicode.Sound() && Sound(c, w)
    ensures Sound(c, Apply(c, w, e))
  {
    ApplyKeepsNames(c, w, e);
    ApplyKeepsKnown(c, w, e);
    ApplyKeepsOwned(c, w, e);
    ApplyKeepsTied(c, w, e);
    ApplyKeepsFlown(c, w, e);
    ApplyKeepsDistinct(c, w, e);
    ApplyKeepsCurrent(c, w, e);
    ApplyKeepsSuperseded(c, w, e);
  }

  lemma {:induction false} RunsKeepSound(c: Config, w: World, events: seq<Event>)
    requires c.unicode.Sound() && Sound(c, w)
    ensures Sound(c, Exec(c, w, events))
  {
    if events == [] {
    } else {
      RunsKeepSound(c, w, events[..|events| - 1]);
      ApplyKeepsSound(c, Exec(c, w, events[..|events| - 1]), events[|events| - 1]);
    }
  }

  /** What some sequence of service calls leads to from an empty database. */
  ghost predicate Reachable(c: Config, w: World) {
    c.unicode.Sound() && exists events :: w == Exec(c, START, events)
  }

  lemma ReachableIsSound(c: Config, w: World)
    requires Reachable(c, w)
    ensures Sound(c, w)
  {
    var events :| w == Exec(c, START, events);
    RunsKeepSound(c, START, events);
  }
}
