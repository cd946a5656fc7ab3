/** Runs of relay and account service that can really be performed: clocks that do not go back, fresh
    ids, and steps that are enabled. */
module ServerSteps {
  import opened Prelude
  import opened RelayModel
  import opened RelaySystem
  import opened Server
  import opened RelaySteps
  import Accounts
  import AccountRuns
  import Identifiers
  import RateLimiting
  import RelayRuns

  /** A state, the latest readings of the monotonic and the wall clock, and the provisional ids drawn so far. */
  datatype Point = Point(state: State, now: Instant, ids: set<Identity>, wall: Instant)

  function Origin(cfg: Config): Point {
    Point(Server.Start(cfg), 0.0, {}, 0.0)
  }

  function MomentOf(p: Point): Moment {
    Moment(p.state.relay, p.now, p.ids)
  }

  /** The reading of the wall clock a step takes, if it takes one. */
  function WallClock(step: Server.Step): Option<Instant> {
    match step
    case Ask(_, now) => Some(now)
    case Call(Register(_, _, _, now)) => Some(now)
    case Call(Login(_, _, _, _, _, _, now)) => Some(now)
    case Call(BeginRefresh(_, _, now)) => Some(now)
    case Call(Logout(_, now)) => Some(now)
    case Call(Delete(_, _, now)) => Some(now)
    case _ => None
  }

  predicate MayGo(p: Point, step: Server.Step) {
    && Server.Enabled(p.state, step)
    && (step.Call? ==> AccountRuns.Enabled(p.state.accounts, step.call))
    && (step.Act? ==> May(MomentOf(p), step.event))
    && (WallClock(step).Some? ==> WallClock(step).value >= p.wall)
  }

  function Gone(cfg: Config, p: Point, step: Server.Step): Point {
    Point(Server.Apply(cfg, p.state, step),
          if step.Act? then RelaySteps.After(MomentOf(p), step.event).now else p.now,
          if step.Act? then RelaySteps.After(MomentOf(p), step.event).ids else p.ids,
          if WallClock(step).Some? then WallClock(step).value else p.wall)
  }

  /** Where a run leads. */
  function GoneThrough(cfg: Config, steps: seq<Server.Step>): Point {
    if steps == [] then Origin(cfg) else Gone(cfg, GoneThrough(cfg, steps[..|steps| - 1]), steps[|steps| - 1])
  }

  /** Each of its steps may happen when it does. */
  predicate CanGo(cfg: Config, steps: seq<Server.Step>) {
    steps == [] ||
    (CanGo(cfg, steps[..|steps| - 1]) && MayGo(GoneThrough(cfg, steps[..|steps| - 1]), steps[|steps| - 1]))
  }

  /** A possible run leads to `p`, by way of `early`. */
  ghost predicate Since(cfg: Config, early: Point, p: Point) {
    exists steps, k: nat ::
      k <= |steps| && CanGo(cfg, steps) && GoneThrough(cfg, steps[..k]) == early && GoneThrough(cfg, steps) == p
  }

  ghost predicate Feasible(cfg: Config, p: Point) {
    Since(cfg, p, p)
  }

  /** The run can be prolonged from `p` to `later`. */
  ghost predicate Prolongs(cfg: Config, p: Point, later: Point) {
    Feasible(cfg, later) && forall early | Since(cfg, early, p) :: Since(cfg, early, later)
  }

  lemma OriginIsFeasible(cfg: Config)
    ensures Feasible(cfg, Origin(cfg))
  {
    var none: seq<Server.Step> := [];
    assert none[..0] == none && CanGo(cfg, none) && Origin(cfg) == GoneThrough(cfg, none);
  }

  lemma SinceGoes(cfg: Config, early: Point, p: Point, step: Server.Step)
    requires Since(cfg, early, p) && MayGo(p, step)
    ensures Since(cfg, early, Gone(cfg, p, step)) && Feasible(cfg, Gone(cfg, p, step))
  {
    var steps, k: nat :| k <= |steps| && CanGo(cfg, steps)
                         && GoneThrough(cfg, steps[..k]) == early && GoneThrough(cfg, steps) == p;
    var more := steps + [step];
    assert more[..|more| - 1] == steps && more[..k] == steps[..k] && more[..|more|] == more;
    assert CanGo(cfg, more) && GoneThrough(cfg, more) == Gone(cfg, p, step);
  }

  /** One more step of the run. */
  lemma Go(cfg: Config, p: Point, step: Server.Step) returns (p': Point)
    requires Feasible(cfg, p) && MayGo(p, step)
    ensures p' == Gone(cfg, p, step) && Prolongs(cfg, p, p')
  {
    p' := Gone(cfg, p, step);
    SinceGoes(cfg, p, p, step);
    forall early | Since(cfg, early, p) ensures Since(cfg, early, p') {
      SinceGoes(cfg, early, p, step);
    }
  }

  lemma ProlongsTransitive(cfg: Config, p: Point, q: Point, r: Point)
    requires Prolongs(cfg, p, q) && Prolongs(cfg, q, r)
    ensures Prolongs(cfg, p, r)
  {
  }

  lemma {:induction false} GoneIsExec(cfg: Config, steps: seq<Server.Step>)
    ensures GoneThrough(cfg, steps).state == Server.Exec(cfg, steps)
  {
    if steps == [] {
    } else {
      GoneIsExec(cfg, steps[..|steps| - 1]);
    }
  }

  /** What is proved of all runs holds of these. */
  lemma FeasibleIsReachable(cfg: Config, p: Point)
    requires cfg.Sound() && Feasible(cfg, p)
    ensures RelayRuns.Reachable(p.state.relay) && RelayRuns.Good(p.state.relay)
  {
    var steps, k: nat :| k <= |steps| && CanGo(cfg, steps)
                         && GoneThrough(cfg, steps[..k]) == p && GoneThrough(cfg, steps) == p;
    GoneIsExec(cfg, steps);
    RelayIsReachable(cfg, steps);
    PartsAreSound(cfg, steps);
  }

  // ---------------------------------------------------------------- the relay's side

  /** Relay events other than a resolution and a leave concern the relay only. */
  lemma GoAct(cfg: Config, p: Point, e: Event) returns (p': Point)
    requires Feasible(cfg, p) && May(MomentOf(p), e) && !e.Resolve? && !e.Leave?
    ensures Prolongs(cfg, p, p') && p'.wall == p.wall
    ensures p'.state == p.state.(relay := RelaySystem.Apply(p.state.relay, e))
    ensures MomentOf(p') == RelaySteps.After(MomentOf(p), e)
  {
    p' := Go(cfg, p, Act(e));
  }

  /** The service answers. */
  lemma GoAsk(cfg: Config, p: Point, c: ConnId, token: string, account: Account) returns (p': Point)
    requires Feasible(cfg, p) && p.wall == 0.0
    requires c in p.state.relay.tasks && p.state.relay.tasks[c].phase == Resolving("m", token) && c !in p.state.answers
    requires Accounts.Resolve(p.state.accounts.db, cfg.read(token), 0.0) == Accounts.Ok(account)
    ensures Prolongs(cfg, p, p') && p' == p.(state := p.state.(answers := p.state.answers[c := Some(account)]))
  {
    p' := Go(cfg, p, Ask(c, 0.0));
  }

  /** The connection is told. */
  lemma GoTell(cfg: Config, p: Point, c: ConnId, account: Account) returns (p': Point)
    requires Feasible(cfg, p) && c in p.state.answers && p.state.answers[c] == Some(account)
    requires RelaySystem.Enabled(p.state.relay, Resolve(c, Some(account)))
    ensures Prolongs(cfg, p, p')
    ensures p' == p.(state := p.state.(relay := RelaySystem.Apply(p.state.relay, Resolve(c, Some(account))),
                                       answers := p.state.answers - {c}))
  {
    p' := Go(cfg, p, Act(Resolve(c, Some(account))));
  }

  lemma AnsweredAndTold(answers: map<ConnId, Option<Account>>, c: ConnId, answer: Option<Account>)
    requires c !in answers
    ensures answers[c := answer] - {c} == answers
  {
  }

  lemma GoBind(cfg: Config, p: Point, c: ConnId, token: string, account: Account) returns (p': Point)
    requires Feasible(cfg, p) && p.wall == 0.0
    requires c in p.state.relay.tasks && p.state.relay.tasks[c].phase == Resolving("m", token)
    requires c in p.state.relay.relay.conns && c !in p.state.answers
    requires Accounts.Resolve(p.state.accounts.db, cfg.read(token), 0.0) == Accounts.Ok(account)
    ensures Prolongs(cfg, p, p')
    ensures p' == p.(state := p.state.(relay := RelaySystem.Apply(p.state.relay, Resolve(c, Some(account)))))
  {
    var asked := GoAsk(cfg, p, c, token, account);
    p' := GoTell(cfg, asked, c, account);
    ProlongsTransitive(cfg, p, asked, p');
    AnsweredAndTold(p.state.answers, c, Some(account));
  }

  /** A connection is opened and accepted, and its writer is sending connection.ready. */
  lemma GoArrive(cfg: Config, p: Point, c: ConnId, provisional: Identity) returns (p': Point)
    requires cfg.Sound() && Feasible(cfg, p) && p.state.relay.relay.limits == cfg.limits
    requires c !in p.state.relay.tasks && provisional !in p.ids && MayRegister(p.state.relay.relay, provisional)
    ensures Prolongs(cfg, p, p') && p'.now == p.now && p'.ids == p.ids + {provisional} && p'.wall == p.wall
    ensures p'.state == p.state.(relay := p'.state.relay)
    ensures OnlyOwn(p.state.relay, p'.state.relay, c) && Arrived(p'.state.relay, c, provisional, 0)
    ensures p'.state.relay.relay.offline == p.state.relay.relay.offline
    ensures p'.state.relay.relay.history.accepted == p.state.relay.relay.history.accepted
  {
    FeasibleIsReachable(cfg, p);
    Opens(p.state.relay, c, provisional);
    var p1 := GoAct(cfg, p, Open(c, provisional));
    RelaySteps.Accepts(p1.state.relay, c, provisional);
    var p2 := GoAct(cfg, p1, Accept(c, true));
    Takes(p2.state.relay, c, provisional);
    p' := GoAct(cfg, p2, Take(c));
    OnlyOwnTransitive(p.state.relay, p1.state.relay, p2.state.relay, c);
    OnlyOwnTransitive(p.state.relay, p2.state.relay, p'.state.relay, c);
    ProlongsTransitive(cfg, p, p1, p2);
    ProlongsTransitive(cfg, p, p2, p');
  }

  /** It presents a token. */
  lemma GoPresent(cfg: Config, p: Point, c: ConnId, provisional: Identity, token: string) returns (p': Point)
    requires Feasible(cfg, p) && Arrived(p.state.relay, c, provisional, 0)
    ensures Prolongs(cfg, p, p') && p'.now == p.now && p'.ids == p.ids && p'.wall == p.wall
    ensures p'.state == p.state.(relay := p'.state.relay) && Local(p.state.relay, p'.state.relay, c)
    ensures Midway(p'.state.relay, c, provisional, Resolving("m", token), 0)
    ensures p'.state.relay.relay.conns[c].limiter
            == RateLimiting.Tick(RateLimiting.FRESH, p.state.relay.relay.limits.windowSeconds, p.now)
  {
    Presents(p.state.relay, c, provisional, token, 0, p.now);
    p' := GoAct(cfg, p, Receive(c, Authenticate(token), p.now));
  }

  /** And is bound to the account the token stands for. */
  lemma GoSignIn(
      cfg: Config, p: Point, c: ConnId, provisional: Identity, token: string, account: Account)
      returns (p': Point)
    requires Feasible(cfg, p) && Arrived(p.state.relay, c, provisional, 0) && p.wall == 0.0 && c !in p.state.answers
    requires Accounts.Resolve(p.state.accounts.db, cfg.read(token), 0.0) == Accounts.Ok(account)
    requires account.username !in p.state.relay.relay.offline
    ensures Prolongs(cfg, p, p') && p' == p.(state := p.state.(relay := p'.state.relay))
    ensures OnlyOwn(p.state.relay, p'.state.relay, c) && Serves(p'.state.relay, c, account, 1)
    ensures p'.state.relay.relay.offline == p.state.relay.relay.offline
    ensures p'.state.relay.relay.history.accepted == p.state.relay.relay.history.accepted
    ensures p'.state.relay.relay.conns[c].limiter
            == RateLimiting.Tick(RateLimiting.FRESH, p.state.relay.relay.limits.windowSeconds, p.now)
  {
    var presented := GoPresent(cfg, p, c, provisional, token);
    Binds(presented.state.relay, c, provisional, token, 0, account);
    p' := GoBind(cfg, presented, c, token, account);
    ProlongsTransitive(cfg, p, presented, p');
    OnlyOwnTransitive(p.state.relay, presented.state.relay, p'.state.relay, c);
  }

  // ---------------------------------------------------------------- the accounts' side

  lemma GoCall(cfg: Config, p: Point, call: AccountRuns.Event) returns (p': Point)
    requires Feasible(cfg, p) && AccountRuns.Enabled(p.state.accounts, call)
    requires WallClock(Call(call)) == Some(0.0) && p.wall == 0.0
    ensures Prolongs(cfg, p, p')
    ensures p' == p.(state := p.state.(accounts := AccountRuns.Apply(cfg.accounts, p.state.accounts, call)))
  {
    p' := Go(cfg, p, Call(call));
  }

  const PASSWORD := "correct horse"

  /** The account as it is registered at instant zero. */
  function NewUser(c: Accounts.Config, name: Identity): Accounts.User {
    Accounts.User(name, name, Accounts.Hashed(c, PASSWORD), true, 0.0, 0.0)
  }

  /** The access token of a login at instant zero. */
  function ClaimsOf(c: Accounts.Config, u: Accounts.Id, sid: Accounts.Id): Accounts.Claims {
    Accounts.Claims(u, sid, "", 0.0.Floor, (0.0 + c.accessTtl).Floor)
  }

  ghost predicate Usable(c: Accounts.Config) {
    c.unicode.Sound() && c.accessTtl >= 1.0 && c.refreshTtl > 0.0 && c.permitted(PASSWORD)
  }

  lemma ValidAsIs(u: Identifiers.Unicode, name: Identity)
    requires u.Sound() && Identifiers.Acceptable(name)
    ensures u.Validate(name) == Some(name) && u.strip(name) == name
  {
    assert Identifiers.Routable(name);
  }

  lemma Registers(c: Accounts.Config, w: AccountRuns.World, u: Accounts.Id, name: Identity)
    requires Usable(c) && Identifiers.Acceptable(name)
    requires u !in w.userIds && u !in w.db.users && Accounts.Named(w.db, name) == {}
    ensures var w' := AccountRuns.Apply(c, w, AccountRuns.Register(u, name, PASSWORD, 0.0));
            w' == w.(db := w.db.(users := w.db.users[u := NewUser(c, name)]), userIds := w.userIds + {u})
  {
    ValidAsIs(c.unicode, name);
  }

  lemma LogsIn(
      c: Accounts.Config, w: AccountRuns.World, u: Accounts.Id, name: Identity, sid: Accounts.Id, token: string)
    requires Usable(c) && Identifiers.Acceptable(name)
    requires u in w.db.users && w.db.users[u] == NewUser(c, name) && Accounts.Named(w.db, name) == {u}
    requires sid !in w.sessionIds && AccountRuns.NewToken(w, token)
    ensures var w' := AccountRuns.Apply(c, w, AccountRuns.Login(name, PASSWORD, false, sid, token, "", 0.0));
            && w'.db.users == w.db.users && w'.userIds == w.userIds
            && w'.sessionIds == w.sessionIds + {sid}
            && w'.grants == w.grants + [AccountRuns.Grant(token, sid)]
            && Accounts.Resolve(w'.db, Accounts.Signed(ClaimsOf(c, u, sid)), 0.0) == Accounts.Ok(Account(u, name, sid))
  {
    ValidAsIs(c.unicode, name);
    assert w.db.users[u := w.db.users[u]] == w.db.users;
  }

  /** An account is registered under a free name and logged into. */
  lemma Enrols(
      cfg: Config, p: Point, u: Accounts.Id, name: Identity, sid: Accounts.Id, token: string)
      returns (p': Point)
    requires Feasible(cfg, p) && p.wall == 0.0 && Usable(cfg.accounts) && Identifiers.Acceptable(name)
    requires u !in p.state.accounts.db.users && u !in p.state.accounts.userIds
    requires Accounts.Named(p.state.accounts.db, name) == {}
    requires sid !in p.state.accounts.sessionIds && AccountRuns.NewToken(p.state.accounts, token)
    ensures Prolongs(cfg, p, p') && p' == p.(state := p.state.(accounts := p'.state.accounts))
    ensures p'.state.accounts.db.users == p.state.accounts.db.users[u := NewUser(cfg.accounts, name)]
    ensures p'.state.accounts.userIds == p.state.accounts.userIds + {u}
    ensures p'.state.accounts.sessionIds == p.state.accounts.sessionIds + {sid}
    ensures p'.state.accounts.grants == p.state.accounts.grants + [AccountRuns.Grant(token, sid)]
    ensures Accounts.Resolve(p'.state.accounts.db, Accounts.Signed(ClaimsOf(cfg.accounts, u, sid)), 0.0)
            == Accounts.Ok(Account(u, name, sid))
  {
    var w := p.state.accounts;
    Registers(cfg.accounts, w, u, name);
    var registered := GoCall(cfg, p, AccountRuns.Register(u, name, PASSWORD, 0.0));
    assert Accounts.Named(registered.state.accounts.db, name) == {u} by {
      assert forall v | v in w.db.users :: v !in Accounts.Named(w.db, name);
    }
    LogsIn(cfg.accounts, registered.state.accounts, u, name, sid, token);
    p' := GoCall(cfg, registered, AccountRuns.Login(name, PASSWORD, false, sid, token, "", 0.0));
    ProlongsTransitive(cfg, p, registered, p');
  }

  /** The account is deleted. */
  lemma Deletes(cfg: Config, p: Point, u: Accounts.Id, name: Identity) returns (p': Point)
    requires Feasible(cfg, p) && p.wall == 0.0
    requires u in p.state.accounts.db.users && p.state.accounts.db.users[u] == NewUser(cfg.accounts, name)
    ensures Prolongs(cfg, p, p')
    ensures p' == p.(state := p.state.(accounts := p.state.accounts.(db := p'.state.accounts.db)))
    ensures p'.state.accounts.db.users == p.state.accounts.db.users - {u}
  {
    p' := GoCall(cfg, p, AccountRuns.Delete(u, PASSWORD, 0.0));
  }
}
