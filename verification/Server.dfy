/**
 The relay together with the account service it asks. A token is resolved at some moment between its
 presentation and the binding: leaving the database session is an await of its own
 (server/app/websocket/endpoint.py:317-326), so account calls and other connections may come in between.
 */
module Server {
  import opened Prelude
  import opened RelayModel
  import opened RelaySystem
  import RelayRuns
  import RelayTheorems
  import Accounts
  import AccountRuns
  import AccountTheorems

  /** `read` is how the token service reads a presented string. */
  datatype Config = Config(limits: Limits, accounts: Accounts.Config, read: string -> Accounts.AccessToken)
  {
    ghost predicate Sound() {
      limits.Positive() && accounts.unicode.Sound()
    }
  }

  /** `answers` has what the service answered to connections that have not been told yet. */
  datatype State = State(relay: World, accounts: AccountRuns.World, answers: map<ConnId, Option<Account>>)

  datatype Step =
    | Call(call: AccountRuns.Event)
    | Ask(c: ConnId, now: Instant) // resolve_access_token on the presented token
    | Act(event: Event)

  function Start(cfg: Config): State {
    State(RelaySystem.Start(cfg.limits), AccountRuns.START, map[])
  }

  predicate Waits(w: World, c: ConnId) {
    c in w.tasks && w.tasks[c].phase.Resolving?
  }

  /** A connection is told what the service answered to it. */
  predicate Enabled(s: State, step: Step) {
    match step
    case Call(_) => true
    case Ask(c, _) => Waits(s.relay, c) && c !in s.answers
    case Act(e) => e.Resolve? ==> e.c in s.answers && e.resolved == s.answers[e.c]
  }

  /** Every refusal is one and the same failed authentication to the relay. */
  function Answer(cfg: Config, s: State, c: ConnId, now: Instant): Option<Account>
    requires Waits(s.relay, c)
  {
    match Accounts.Resolve(s.accounts.db, cfg.read(s.relay.tasks[c].phase.token), now)
    case Ok(account) => Some(account)
    case Err(_) => None
  }

  function Effect(cfg: Config, s: State, step: Step): State
    requires Enabled(s, step)
  {
    match step
    case Call(call) => s.(accounts := AccountRuns.Apply(cfg.accounts, s.accounts, call))
    case Ask(c, now) => s.(answers := s.answers[c := Answer(cfg, s, c, now)])
    case Act(e) =>
      s.(relay := RelaySystem.Apply(s.relay, e),
         answers := if e.Resolve? || e.Leave? then s.answers - {e.c} else s.answers)
  }

  function Apply(cfg: Config, s: State, step: Step): State {
    if Enabled(s, step) then Effect(cfg, s, step) else s
  }

  function Exec(cfg: Config, steps: seq<Step>): State {
    if steps == [] then Start(cfg) else Apply(cfg, Exec(cfg, steps[..|steps| - 1]), steps[|steps| - 1])
  }

  // ---------------------------------------------------------------- each part on its own

  /** Both parts of every reachable state are reachable states of their own systems. */
  lemma {:induction false} PartsAreSound(cfg: Config, steps: seq<Step>)
    requires cfg.Sound()
    ensures RelayRuns.Good(Exec(cfg, steps).relay)
    ensures AccountRuns.Sound(cfg.accounts, Exec(cfg, steps).accounts)
  {
    if steps == [] {
      RelayRuns.StartIsGood(cfg.limits);
    } else {
      var before, step := Exec(cfg, steps[..|steps| - 1]), steps[|steps| - 1];
      PartsAreSound(cfg, steps[..|steps| - 1]);
      match step
      case Call(call) => AccountRuns.ApplyKeepsSound(cfg.accounts, before.accounts, call);
      case Ask(_, _) =>
      case Act(e) => RelayRuns.ApplyKeepsGood(before.relay, e);
    }
  }

  /** So what is proved of all runs of the relay holds here. */
  lemma {:induction false} RelayIsReachable(cfg: Config, steps: seq<Step>)
    requires cfg.Sound()
    ensures RelayRuns.Reachable(Exec(cfg, steps).relay)
  {
    if steps == [] {
      assert RelaySystem.Start(cfg.limits) == RelaySystem.Exec(RelaySystem.Start(cfg.limits), []);
    } else {
      var before, step := Exec(cfg, steps[..|steps| - 1]), steps[|steps| - 1];
      RelayIsReachable(cfg, steps[..|steps| - 1]);
      if step.Act? {
        RelayRuns.ReachableNext(before.relay, step.event);
      }
    }
  }

  // ---------------------------------------------------------------- who may be bound

  /** The account is that of an active user with a live session, under its stored username. */
  predicate LiveAccount(db: Accounts.Db, a: Account, now: Instant) {
    && a.sessionId in db.sessions && db.sessions[a.sessionId].Usable(now) && db.sessions[a.sessionId].userId == a.userId
    && a.userId in db.users && db.users[a.userId].active && db.users[a.userId].username == a.username
  }

  /** The token the connection has presented stands for the account at this moment. */
  predicate Vouched(cfg: Config, s: State, c: ConnId, now: Instant, a: Account) {
    && Waits(s.relay, c)
    && Accounts.Resolve(s.accounts.db, cfg.read(s.relay.tasks[c].phase.token), now) == Accounts.Ok(a)
    && LiveAccount(s.accounts.db, a, now)
  }

  /** At some step of the run the service vouched for the account to the connection. */
  ghost predicate VouchedIn(cfg: Config, steps: seq<Step>, c: ConnId, a: Account) {
    exists k: nat ::
      && k < |steps| && steps[k].Ask? && steps[k].c == c
      && Vouched(cfg, Exec(cfg, steps[..k]), c, steps[k].now, a)
  }

  lemma VouchedSnoc(cfg: Config, steps: seq<Step>, c: ConnId, a: Account)
    requires steps != [] && VouchedIn(cfg, steps[..|steps| - 1], c, a)
    ensures VouchedIn(cfg, steps, c, a)
  {
    var most := steps[..|steps| - 1];
    var k: nat :| k < |most| && most[k].Ask? && most[k].c == c && Vouched(cfg, Exec(cfg, most[..k]), c, most[k].now, a);
    assert most[..k] == steps[..k];
  }

  lemma AskVouches(cfg: Config, steps: seq<Step>, c: ConnId, now: Instant, a: Account)
    requires steps != [] && steps[|steps| - 1] == Ask(c, now)
    requires var s := Exec(cfg, steps[..|steps| - 1]);
             Waits(s.relay, c) && Answer(cfg, s, c, now) == Some(a)
    ensures VouchedIn(cfg, steps, c, a)
  {
    var n := |steps| - 1;
    assert Vouched(cfg, Exec(cfg, steps[..n]), c, steps[n].now, a);
  }

  /** Nobody is bound or about to be bound to an account the service has not vouched for. */
  ghost predicate AllVouched(cfg: Config, steps: seq<Step>, s: State) {
    && (forall c | c in s.answers && s.answers[c].Some? :: VouchedIn(cfg, steps, c, s.answers[c].value))
    && (forall c | c in s.relay.relay.history.bound :: VouchedIn(cfg, steps, c, s.relay.relay.history.bound[c]))
  }

  /** What a step adds to the answers and the bindings. */
  lemma StepBinds(cfg: Config, s: State, step: Step, c: ConnId)
    requires RelayRuns.Good(s.relay)
    ensures var s' := Apply(cfg, s, step);
            && (c in s'.answers ==> (c in s.answers && s'.answers[c] == s.answers[c])
                                    || (step.Ask? && step.c == c
                                        && Enabled(s, step) && s'.answers[c] == Answer(cfg, s, c, step.now)))
            && (c in s'.relay.relay.history.bound ==>
                  || (c in s.relay.relay.history.bound
                      && s'.relay.relay.history.bound[c] == s.relay.relay.history.bound[c])
                  || (c in s.answers && s.answers[c] == Some(s'.relay.relay.history.bound[c])))
  {
    if step.Act? {
      RelayTheorems.BindingOfStep(s.relay, step.event);
    }
  }

  lemma {:induction false} RunsVouch(cfg: Config, steps: seq<Step>)
    requires cfg.Sound()
    ensures AllVouched(cfg, steps, Exec(cfg, steps))
  {
    if steps == [] {
    } else {
      var most, step := steps[..|steps| - 1], steps[|steps| - 1];
      var s, s' := Exec(cfg, most), Exec(cfg, steps);
      RunsVouch(cfg, most);
      PartsAreSound(cfg, most);
      forall c | c in s'.answers && s'.answers[c].Some? ensures VouchedIn(cfg, steps, c, s'.answers[c].value) {
        StepBinds(cfg, s, step, c);
        if c in s.answers && s'.answers[c] == s.answers[c] {
          VouchedSnoc(cfg, steps, c, s'.answers[c].value);
        } else {
          AskVouches(cfg, steps, c, step.now, s'.answers[c].value);
        }
      }
      forall c | c in s'.relay.relay.history.bound ensures VouchedIn(cfg, steps, c, s'.relay.relay.history.bound[c]) {
        StepBinds(cfg, s, step, c);
        VouchedSnoc(cfg, steps, c, s'.relay.relay.history.bound[c]);
      }
    }
  }

  /** Every account a connection was ever bound to was, at a moment at which the connection was waiting
      for the answer to the token it had presented, what that token resolved to: an active user's
      account, under its stored username, with a session neither revoked nor expired. */
  lemma BoundAccountWasLive(cfg: Config, steps: seq<Step>, c: ConnId)
    requires cfg.Sound() && c in Exec(cfg, steps).relay.relay.history.bound
    ensures exists k: nat :: k < |steps| && steps[k].Ask? && steps[k].c == c
              && Vouched(cfg, Exec(cfg, steps[..k]), c, steps[k].now, Exec(cfg, steps).relay.relay.history.bound[c])
  {
    RunsVouch(cfg, steps);
  }

  // ---------------------------------------------------------------- who shares a routing identity

  /** The account's user id was once registered, and while it is, under the account's username. */
  predicate Registered(w: AccountRuns.World, a: Account) {
    a.userId in w.userIds && (a.userId in w.db.users ==> w.db.users[a.userId].username == a.username)
  }

  lemma CallKeepsRegistered(c: Accounts.Config, w: AccountRuns.World, call: AccountRuns.Event, a: Account)
    requires AccountRuns.Known(w) && Registered(w, a)
    ensures Registered(AccountRuns.Apply(c, w, call), a)
  {
  }

  ghost predicate AllRegistered(s: State) {
    && (forall c | c in s.answers && s.answers[c].Some? :: Registered(s.accounts, s.answers[c].value))
    && (forall c | c in s.relay.relay.history.bound :: Registered(s.accounts, s.relay.relay.history.bound[c]))
  }

  lemma CallKeepsAllRegistered(cfg: Config, s: State, call: AccountRuns.Event)
    requires AccountRuns.Known(s.accounts) && AllRegistered(s)
    ensures AllRegistered(Effect(cfg, s, Call(call)))
  {
    forall a | Registered(s.accounts, a)
      ensures Registered(AccountRuns.Apply(cfg.accounts, s.accounts, call), a)
    {
      CallKeepsRegistered(cfg.accounts, s.accounts, call, a);
    }
  }

  lemma AskKeepsAllRegistered(cfg: Config, s: State, c: ConnId, now: Instant)
    requires AccountRuns.Known(s.accounts) && AllRegistered(s) && Enabled(s, Ask(c, now))
    ensures AllRegistered(Effect(cfg, s, Ask(c, now)))
  {
  }

  lemma ActKeepsAllRegistered(cfg: Config, s: State, e: Event)
    requires RelayRuns.Good(s.relay) && AllRegistered(s) && Enabled(s, Act(e))
    ensures AllRegistered(Effect(cfg, s, Act(e)))
  {
    RelayTheorems.BindingOfStep(s.relay, e);
  }

  lemma StepKeepsRegistered(cfg: Config, s: State, step: Step)
    requires RelayRuns.Good(s.relay) && AccountRuns.Known(s.accounts) && AllRegistered(s)
    ensures AllRegistered(Apply(cfg, s, step))
  {
    if Enabled(s, step) {
      match step
      case Call(call) => CallKeepsAllRegistered(cfg, s, call);
      case Ask(c, now) => AskKeepsAllRegistered(cfg, s, c, now);
      case Act(e) => ActKeepsAllRegistered(cfg, s, e);
    }
  }

  lemma {:induction false} RunsKeepRegistered(cfg: Config, steps: seq<Step>)
    requires cfg.Sound()
    ensures AllRegistered(Exec(cfg, steps))
  {
    if steps == [] {
    } else {
      var most := steps[..|steps| - 1];
      RunsKeepRegistered(cfg, most);
      PartsAreSound(cfg, most);
      StepKeepsRegistered(cfg, Exec(cfg, most), steps[|steps| - 1]);
    }
  }

  lemma SameNameSameUser(cfg: Config, steps: seq<Step>, a: Account, b: Account)
    requires cfg.Sound() && Registered(Exec(cfg, steps).accounts, a) && Registered(Exec(cfg, steps).accounts, b)
    requires a.username == b.username
    ensures var db := Exec(cfg, steps).accounts.db;
            a.userId == b.userId || a.userId !in db.users || b.userId !in db.users
  {
    var db := Exec(cfg, steps).accounts.db;
    PartsAreSound(cfg, steps);
    if a.userId in db.users && b.userId in db.users {
      AccountTheorems.SameNameSameAccount(cfg.accounts, db, a.userId, b.userId);
    }
  }

  lemma BoundIsRegistered(cfg: Config, steps: seq<Step>, c: ConnId)
    requires cfg.Sound() && c in Exec(cfg, steps).relay.relay.conns
    requires Exec(cfg, steps).relay.relay.conns[c].account.Some?
    ensures Registered(Exec(cfg, steps).accounts, Exec(cfg, steps).relay.relay.conns[c].account.value)
  {
    PartsAreSound(cfg, steps);
    RunsKeepRegistered(cfg, steps);
  }

  /** Two live authenticated connections with one routing identity belong to the same user, unless the
      account of one of them has been deleted since. */
  lemma SharedIdentityIsSharedAccount(cfg: Config, steps: seq<Step>, c: ConnId, d: ConnId)
    requires cfg.Sound()
    requires var r := Exec(cfg, steps).relay.relay;
             && c in r.conns && r.conns[c].account.Some? && d in r.conns && r.conns[d].account.Some?
             && r.conns[c].Identity() == r.conns[d].Identity()
    ensures var r, db := Exec(cfg, steps).relay.relay, Exec(cfg, steps).accounts.db;
            var u, v := r.conns[c].account.value.userId, r.conns[d].account.value.userId;
            u == v || u !in db.users || v !in db.users
  {
    var r := Exec(cfg, steps).relay.relay;
    BoundIsRegistered(cfg, steps, c);
    BoundIsRegistered(cfg, steps, d);
    SameNameSameUser(cfg, steps, r.conns[c].account.value, r.conns[d].account.value);
  }

  // ---------------------------------------------------------------- whom a message reaches

  /** The k-th step got the message at position `i` accepted. */
  predicate AcceptedAt(cfg: Config, steps: seq<Step>, k: nat, i: nat) {
    && k < |steps|
    && |Exec(cfg, steps[..k]).relay.relay.history.accepted| <= i
    && i < |Exec(cfg, steps[..k + 1]).relay.relay.history.accepted|
  }

  /** A user with this id and name stays one, or is deleted. */
  lemma {:induction false} OwnerStays(cfg: Config, steps: seq<Step>, k: nat, a: Account)
    requires cfg.Sound() && k <= |steps| && Registered(Exec(cfg, steps[..k]).accounts, a)
    ensures Registered(Exec(cfg, steps).accounts, a)
    decreases |steps|
  {
    if k == |steps| {
      assert steps[..k] == steps;
    } else {
      var most, step := steps[..|steps| - 1], steps[|steps| - 1];
      assert most[..k] == steps[..k];
      OwnerStays(cfg, most, k, a);
      PartsAreSound(cfg, most);
      if step.Call? {
        CallKeepsRegistered(cfg.accounts, Exec(cfg, most).accounts, step.call, a);
      }
    }
  }

  /** A message handed to an authenticated connection, live or from the backlog, reaches the user who had
      its recipient's name when it was accepted, unless one of the two accounts has been deleted since. */
  lemma MessageReachesItsOwner(cfg: Config, steps: seq<Step>, c: ConnId, p: nat, k: nat, u: Accounts.Id)
    requires cfg.Sound()
    requires var r := Exec(cfg, steps).relay.relay;
             && c in r.conns && r.conns[c].account.Some?
             && r.conns[c].boundAt <= p < |r.conns[c].log| && r.conns[c].log[p].message.MessageReceipt?
             && r.conns[c].log[p].Routed? && AcceptedAt(cfg, steps, k, r.conns[c].log[p].stamp)
             && var users := Exec(cfg, steps[..k]).accounts.db.users;
                u in users && users[u].username == r.conns[c].log[p].message.recipient
    ensures var r, db := Exec(cfg, steps).relay.relay, Exec(cfg, steps).accounts.db;
            var v := r.conns[c].account.value.userId;
            u == v || u !in db.users || v !in db.users
  {
    var w := Exec(cfg, steps).relay;
    var ctx := w.relay.conns[c];
    RelayIsReachable(cfg, steps);
    RelayTheorems.DeliveryInOrder(w, c);
    assert ctx.log[ctx.boundAt..][p - ctx.boundAt] == ctx.log[p];
    var owner := Account(u, ctx.account.value.username, "");
    PartsAreSound(cfg, steps[..k]);
    OwnerStays(cfg, steps, k, owner);
    BoundIsRegistered(cfg, steps, c);
    SameNameSameUser(cfg, steps, owner, ctx.account.value);
  }
}
