/** What holds of the account service over every sequence of its calls. */
module AccountTheorems {
  import opened Prelude
  import opened Accounts
  import opened AccountRuns

  // ---------------------------------------------------------------- names

  lemma SameNameSameAccount(c: Config, db: Db, u: Id, v: Id)
    requires NamesUnique(c, db) && u in db.users && v in db.users && db.users[u].username == db.users[v].username
    ensures u == v
  {
  }

  /** No two accounts share a username, hence a routing identity. */
  lemma UsernamesIdentifyAccounts(c: Config, w: World, u: Id, v: Id)
    requires Reachable(c, w) && u in w.db.users && v in w.db.users
    ensures w.db.users[u].username == w.db.users[v].username <==> u == v
  {
    ReachableIsSound(c, w);
  }

  /** The lookups by normalized name and by token hash never find two rows. */
  lemma LookupsAreUnique(c: Config, w: World, normalized: string, token: Token)
    requires Reachable(c, w)
    ensures !Scalar(Named(w.db, normalized)).Multiple?
    ensures !Scalar(WithHash(w.db, Sha256(token))).Multiple?
  {
    ReachableIsSound(c, w);
    var found := Named(w.db, normalized);
    if found != {} {
      var u :| u in found;
      assert found == {u};
    }
    LookupFindsLatest(w, token, "");
  }

  predicate OwnerActive(db: Db, sid: Id) {
    && sid in db.sessions && db.sessions[sid].userId in db.users
    && db.users[db.sessions[sid].userId].active
  }

  function OwnIdentity(db: Db, sid: Id): Account
    requires OwnerActive(db, sid)
  {
    Account(db.sessions[sid].userId, db.users[db.sessions[sid].userId].username, sid)
  }

  // ---------------------------------------------------------------- refresh tokens

  /** Exactly when a refresh token is exchanged: it is the newest one issued for a session that is
      neither revoked, nor expired, nor of a disabled account; and it is exchanged for that session. */
  lemma RefreshExactly(c: Config, w: World, presented: Token, token: Token, jti: string, now: Instant)
    requires Reachable(c, w)
    ensures var result := Accounts.Refresh(c, w.db, presented, token, jti, now).1;
      && (result.Ok? <==> exists sid ::
            && sid in w.db.sessions && Latest(w.grants, sid) == Some(presented)
            && w.db.sessions[sid].Usable(now) && OwnerActive(w.db, sid))
      && (result.Ok? ==>
            var sid := result.value.identity.sessionId;
            && Latest(w.grants, sid) == Some(presented)
            && OwnerActive(w.db, sid) && result.value.identity == OwnIdentity(w.db, sid))
  {
    ReachableIsSound(c, w);
    forall sid ensures Scalar(WithHash(w.db, Sha256(presented))) == One(sid) <==>
      sid in w.db.sessions && Latest(w.grants, sid) == Some(presented)
    {
      LookupFindsLatest(w, presented, sid);
    }
    LookupsAreUnique(c, w, "", presented);
  }

  lemma {:induction false} RunsExtend(c: Config, w: World, before: seq<Event>, after: seq<Event>)
    ensures Exec(c, w, before + after) == Exec(c, Exec(c, w, before), after)
  {
    if after == [] {
      assert before + after == before;
    } else {
      assert (before + after)[..|before + after| - 1] == before + after[..|after| - 1];
      RunsExtend(c, w, before, after[..|after| - 1]);
    }
  }

  lemma StaysReachable(c: Config, w: World, events: seq<Event>)
    requires Reachable(c, w)
    ensures Reachable(c, Exec(c, w, events))
  {
    var before :| w == Exec(c, START, before);
    RunsExtend(c, START, before, events);
  }

  lemma {:induction false} RecordsGrow(c: Config, w: World, events: seq<Event>)
    ensures forall a | a in w.begun :: a in Exec(c, w, events).begun && Exec(c, w, events).begun[a] == w.begun[a]
    ensures forall a | a in w.spent :: a in Exec(c, w, events).spent
    ensures forall g | g in w.grants :: g in Exec(c, w, events).grants
  {
    if events == [] {
    } else {
      RecordsGrow(c, w, events[..|events| - 1]);
    }
  }

  /** A refresh token exchanged once is refused to every refresh that begins later, after any further calls. */
  lemma SpentIsRefused(c: Config, w: World, a: Attempt, events: seq<Event>, now: Instant)
    requires Reachable(c, w) && a in w.spent && a in w.begun
    ensures Accounts.BeginRefresh(Exec(c, w, events).db, w.begun[a].presented, now).Err?
  {
    var last := Exec(c, w, events);
    StaysReachable(c, w, events);
    RecordsGrow(c, w, events);
    ReachableIsSound(c, last);
    var found := Redeem(last.db, w.begun[a].presented, now);
    if found.Ok? {
      LookupFindsLatest(last, w.begun[a].presented, found.value);
      LatestIsUnspent(last, found.value, a);
    }
  }

  // ---------------------------------------------------------------- revocation

  /** The session existed, and is gone or revoked. */
  predicate Dead(w: World, sid: Id) {
    sid in w.sessionIds && (sid in w.db.sessions ==> w.db.sessions[sid].revokedAt.Some?)
  }

  predicate Alive(w: World, sid: Id) {
    sid in w.db.sessions && w.db.sessions[sid].revokedAt.None?
  }

  lemma RefreshKeepsDead(c: Config, w: World, e: Event, sid: Id)
    requires Known(w) && Tied(w) && Dead(w, sid) && Enabled(w, e) && (e.BeginRefresh? || e.FinishRefresh?)
    ensures Dead(Effect(c, w, e), sid)
  {
  }

  lemma DeadStaysDead(c: Config, w: World, e: Event, sid: Id)
    requires Known(w) && Tied(w) && Dead(w, sid)
    ensures Dead(Apply(c, w, e), sid)
  {
    if Enabled(w, e) && (e.BeginRefresh? || e.FinishRefresh?) {
      RefreshKeepsDead(c, w, e, sid);
    }
  }

  lemma {:induction false} DeadForever(c: Config, w: World, events: seq<Event>, sid: Id)
    requires c.unicode.Sound() && Sound(c, w) && Dead(w, sid)
    ensures Dead(Exec(c, w, events), sid)
  {
    if events == [] {
    } else {
      var most := events[..|events| - 1];
      DeadForever(c, w, most, sid);
      RunsKeepSound(c, w, most);
      DeadStaysDead(c, Exec(c, w, most), events[|events| - 1], sid);
    }
  }

  lemma DeadIsNotRedeemed(c: Config, w: World, sid: Id, refresh: Token, now: Instant)
    requires Sound(c, w) && Dead(w, sid) && Grant(refresh, sid) in w.grants
    ensures Redeem(w.db, refresh, now).Err?
  {
    var found := Redeem(w.db, refresh, now);
    if found.Ok? {
      LookupFindsLatest(w, refresh, found.value);
      LatestIsGranted(w.grants, found.value);
      SameGrant(w.grants, Grant(refresh, found.value), Grant(refresh, sid));
    }
  }

  /** Whatever is called after a session died (registering the same name again included), no access
      token of the session resolves and no refresh token of it is accepted, not even one that a refresh
      already under way is given later. */
  lemma RevocationIsPermanent(
      c: Config, w: World, events: seq<Event>, sid: Id, access: AccessToken, refresh: Token, next: Token, jti: string,
      now: Instant)
    requires Reachable(c, w) && Dead(w, sid)
    requires access.Signed? && access.claims.sid == sid
    requires Grant(refresh, sid) in Exec(c, w, events).grants
    ensures var db := Exec(c, w, events).db;
      && Resolve(db, access, now).Err?
      && Accounts.Refresh(c, db, refresh, next, jti, now).1.Err?
  {
    var last := Exec(c, w, events);
    ReachableIsSound(c, w);
    RunsKeepSound(c, w, events);
    DeadForever(c, w, events, sid);
    DeadIsNotRedeemed(c, last, sid, refresh, now);
  }

  /** The call is the session's logout, or deletes its account with the right password. */
  predicate Revokes(c: Config, w: World, e: Event, sid: Id)
    requires sid in w.db.sessions
  {
    || (e.Logout? && e.sid == sid)
    || (e.Delete? && e.userId == w.db.sessions[sid].userId
        && e.userId in w.db.users && w.db.users[e.userId].password.password == c.nfkc(e.password))
  }

  lemma RefreshKeepsAlive(c: Config, w: World, e: Event, sid: Id)
    requires Known(w) && Alive(w, sid) && Enabled(w, e) && (e.BeginRefresh? || e.FinishRefresh? || e.Login?)
    ensures Alive(Effect(c, w, e), sid) && sid in Effect(c, w, e).sessionIds
  {
  }

  lemma OthersDecide(c: Config, w: World, e: Event, sid: Id)
    requires Known(w) && Alive(w, sid) && Enabled(w, e) && !e.BeginRefresh? && !e.FinishRefresh? && !e.Login?
    ensures Alive(Effect(c, w, e), sid) <==> !Revokes(c, w, e, sid)
    ensures sid in Effect(c, w, e).sessionIds
  {
  }

  /** A live session dies by its own logout or by the deletion of its account, and by nothing else. */
  lemma DiesOnlyByRevocation(c: Config, w: World, e: Event, sid: Id)
    requires Reachable(c, w) && Alive(w, sid)
    ensures Dead(Apply(c, w, e), sid) <==> Revokes(c, w, e, sid)
    ensures Dead(Apply(c, w, e), sid) <==> !Alive(Apply(c, w, e), sid)
  {
    ReachableIsSound(c, w);
    if Enabled(w, e) {
      if e.BeginRefresh? || e.FinishRefresh? || e.Login? {
        RefreshKeepsAlive(c, w, e, sid);
      } else {
        OthersDecide(c, w, e, sid);
      }
    }
  }

  /** Deletion removes the account and exactly its sessions; the revocation before it leaves no trace. */
  lemma DeletionIsComplete(c: Config, db: Db, userId: Id, password: string, now: Instant)
    requires DeleteAccount(c, db, userId, password, now).1.Ok?
    ensures var after := DeleteAccount(c, db, userId, password, now).0;
      && after.users == db.users - {userId}
      && (forall s :: s in after.sessions <==> s in db.sessions && db.sessions[s].userId != userId)
      && (forall s | s in after.sessions :: after.sessions[s] == db.sessions[s])
  {
  }

  // ---------------------------------------------------------------- access tokens

  /** Exactly when an access token signed by the service resolves, and to what. The "account no
      longer exists" and "session/user mismatch" refusals never occur for one. */
  lemma ResolveExactly(c: Config, w: World, claims: Claims, now: Instant)
    requires Reachable(c, w) && claims in w.claims
    ensures var result := Resolve(w.db, Signed(claims), now);
      && (result.Ok? <==>
            && claims.iat as real <= now && now < claims.exp as real
            && Alive(w, claims.sid) && now < w.db.sessions[claims.sid].expiresAt
            && OwnerActive(w.db, claims.sid))
      && (result.Ok? ==> result.value == OwnIdentity(w.db, claims.sid))
      && result != Err(AccountGone) && result != Err(SessionUserMismatch)
  {
    ReachableIsSound(c, w);
  }

  /** A fresh login's access token resolves at once to the account whose password was given, under
      the name it was registered with. */
  lemma LoginThenResolve(
      c: Config, w: World, username: string, password: string, blocked: bool, sid: Id, token: Token, jti: string,
      now: Instant, later: Instant)
    requires Reachable(c, w)
    requires now <= later && later < (now + c.accessTtl).Floor as real && later < now + c.refreshTtl
    requires Accounts.Login(c, w.db, username, password, blocked, sid, token, jti, now).1.Ok?
    ensures var (db, result) := Accounts.Login(c, w.db, username, password, blocked, sid, token, jti, now);
      && Resolve(db, result.value.access, later) == Ok(result.value.identity)
      && result.value.identity.userId in db.users
      && db.users[result.value.identity.userId].normalized == c.unicode.fold(username)
      && Matches(c, db.users[result.value.identity.userId].password, password)
  {
    ReachableIsSound(c, w);
    var found := Named(w.db, c.unicode.fold(username));
    assert TheOne(found) in found;
  }
}
