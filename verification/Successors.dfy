/** Possible runs in which a username changes hands while messages and a connection outlive its first owner. */
module Successors {
  import opened Prelude
  import opened RelayModel
  import opened RelaySystem
  import opened RelayInvariants
  import opened RelayProtocol
  import opened Server
  import opened RelaySteps
  import opened ServerSteps
  import Accounts
  import AccountRuns
  import Identifiers
  import OfflineQueues
  import RateLimiting
  import RelayTasks
  import RelayTheorems

  /** What the runs need of the configuration: enough room, and that the tokens of three sessions can be presented. */
  ghost predicate Suits(cfg: Config) {
    && cfg.Sound() && cfg.limits.maxPendingOutbound > 1 && cfg.limits.maxTotalConnections > 1
    && Usable(cfg.accounts)
    && cfg.read("first") == Accounts.Signed(ClaimsOf(cfg.accounts, "1", "s"))
    && cfg.read("second") == Accounts.Signed(ClaimsOf(cfg.accounts, "2", "t"))
    && cfg.read("third") == Accounts.Signed(ClaimsOf(cfg.accounts, "3", "r"))
  }

  // ---------------------------------------------------------------- sending

  function ReceiptOf(sender: Identity, recipient: Identity): Receipt {
    MessageReceipt("m", sender, recipient, "", "")
  }

  /** The connection has sent nothing but its token so far. */
  predicate Silent(w: World, c: ConnId) {
    c in w.relay.conns && w.relay.conns[c].limiter == RateLimiting.Window(0.0, 1)
  }

  /** A reply of `d` is all that is different. */
  ghost predicate RespondsAfter(r: Relay, r': Relay, d: ConnId) {
    && r'.limits == r.limits && r'.offline == r.offline && r'.history == r.history
    && (forall c | c != d :: c in r'.conns <==> c in r.conns)
    && (forall c | c != d && c in r.conns :: r'.conns[c] == r.conns[c])
    && (d in r.conns && d in r'.conns ==> r'.conns[d].account == r.conns[d].account)
  }

  /** The relay when the limiter has counted a frame in its second window. */
  function Counted(r: Relay, d: ConnId): Relay
    requires d in r.conns
  {
    SetContext(r, d, r.conns[d].(limiter := RateLimiting.Window(r.limits.windowSeconds, 1)))
  }

  lemma CountingKeepsIndexed(r: Relay, d: ConnId)
    requires Indexed(r) && d in r.conns
    ensures Indexed(Counted(r, d))
  {
    SameRegistryKeepsIndexed(r, Counted(r, d));
  }

  lemma SendDispatches(w: World, d: ConnId, account: Account, recipient: Identity)
    requires Serves(w, d, account, 1) && Silent(w, d)
    ensures var env := Envelope("m", MessageSend, account.username, Some(recipient), "", "", Unacceptable);
            HandleFrame(w.relay, d, Send(account.username, recipient), w.relay.limits.windowSeconds)
            == Dispatch(Counted(w.relay, d), d, env)
  {
  }

  /** One window later a message passes the limiter and is routed. */
  lemma SendRoutes(w: World, d: ConnId, account: Account, recipient: Identity)
    requires Serves(w, d, account, 1) && Silent(w, d)
    ensures var o := HandleFrame(w.relay, d, Send(account.username, recipient), w.relay.limits.windowSeconds);
            && d in o.relay.conns && !o.next.AwaitToken?
            && RespondsAfter(RouteMessage(Counted(w.relay, d), d, ReceiptOf(account.username, recipient)), o.relay, d)
  {
    SendDispatches(w, d, account, recipient);
    var env := Envelope("m", MessageSend, account.username, Some(recipient), "", "", Unacceptable);
    RelayTasks.DispatchGrows(Counted(w.relay, d), d, env);
  }

  lemma RoutesTo(r: Relay, c: ConnId, d: ConnId, name: Identity, receipt: Receipt)
    requires Indexed(r) && r.limits.Positive() && receipt.recipient == name
    requires Hosts(r, name, c) && r.conns[c].Takes(r.limits.maxPendingOutbound) && d in r.conns
    ensures var r' := RouteMessage(r, d, receipt);
            && c in r'.conns && r'.conns[c] == With(r.conns[c], Routed(receipt, |r.history.accepted|))
            && d in r'.conns && r'.conns[d].account == r.conns[d].account
            && r'.history.accepted == r.history.accepted + [Accepted(receipt, d, Delivered)]
  {
    AcknowledgementIsExact(r, d, receipt);
  }

  /** A message of `d` to their common name reaches `c`. */
  lemma Delivers(w: World, c: ConnId, d: ConnId, first: Account, second: Account)
    requires Indexed(w.relay) && w.relay.limits.maxPendingOutbound > 1 && c != d
    requires Serves(w, c, first, 1) && Serves(w, d, second, 1) && Silent(w, d) && first.username == second.username
    ensures var frame := Send(second.username, first.username);
            var w' := RelaySystem.Apply(w, Receive(d, frame, w.relay.limits.windowSeconds));
            var receipt := ReceiptOf(second.username, first.username);
            && c in w'.relay.conns
            && w'.relay.conns[c] == With(w.relay.conns[c], Routed(receipt, |w.relay.history.accepted|))
            && d in w'.relay.conns && w'.relay.conns[d].account == Some(second)
            && w'.relay.history.accepted == w.relay.history.accepted + [Accepted(receipt, d, Delivered)]
  {
    var counted := Counted(w.relay, d);
    CountingKeepsIndexed(w.relay, d);
    SendRoutes(w, d, second, first.username);
    RoutesTo(counted, c, d, first.username, ReceiptOf(second.username, first.username));
  }

  lemma RoutesOffline(r: Relay, d: ConnId, receipt: Receipt)
    requires Indexed(r) && r.limits.Positive() && !IsConnected(r, receipt.recipient) && r.offline == map[]
    ensures var r' := RouteMessage(r, d, receipt);
            && r'.conns == r.conns && r'.offline == map[receipt.recipient := [Routed(receipt, |r.history.accepted|)]]
            && r'.history.accepted == r.history.accepted + [Accepted(receipt, d, Queued)]
  {
    assert StatusFor(r, receipt.recipient).Queued?;
    var e := Routed(receipt, |r.history.accepted|);
    assert OfflineQueues.QueueOf(r.offline, receipt.recipient) + [e] == [e];
  }

  /** A message of `d` to somebody who is not connected is queued. */
  lemma Queues(w: World, d: ConnId, account: Account, recipient: Identity)
    requires Indexed(w.relay) && Serves(w, d, account, 1) && Silent(w, d)
    requires !IsConnected(w.relay, recipient) && w.relay.offline == map[] && w.relay.history.accepted == []
    ensures var w' := RelaySystem.Apply(w, Receive(d, Send(account.username, recipient), w.relay.limits.windowSeconds));
            var receipt := ReceiptOf(account.username, recipient);
            && w'.relay.offline == map[recipient := [Routed(receipt, 0)]]
            && w'.relay.history.accepted == [Accepted(receipt, d, Queued)]
            && w'.relay.limits == w.relay.limits
            && (forall c | c != d :: c in w'.relay.conns <==> c in w.relay.conns)
            && (forall c | c != d :: c in w'.tasks <==> c in w.tasks)
            && d in w'.relay.conns && w'.relay.conns[d].account == Some(account)
  {
    var counted := Counted(w.relay, d);
    CountingKeepsIndexed(w.relay, d);
    SendRoutes(w, d, account, recipient);
    RoutesOffline(counted, d, ReceiptOf(account.username, recipient));
  }

  /** A connection with an empty queue is handed a backlog of one. */
  lemma BindsBacklog(w: World, c: ConnId, provisional: Identity, token: string, account: Account, e: Entry)
    requires Midway(w, c, provisional, Resolving("m", token), 0) && w.relay.limits.maxPendingOutbound > 1
    requires OfflineQueues.QueueOf(w.relay.offline, account.username) == [e]
    ensures var ctx := w.relay.conns[c];
            var w' := RelaySystem.Apply(w, Resolve(c, Some(account)));
            && c in w'.relay.conns && w'.relay.conns[c].account == Some(account)
            && w'.relay.conns[c].boundAt == |ctx.log|
            && w'.relay.conns[c].log == ctx.log + [Own(AuthReady("m", account)), e]
            && w'.relay.history.accepted == w.relay.history.accepted
  {
    var es := [Own(AuthReady("m", account))] + OfflineQueues.QueueOf(w.relay.offline, account.username);
    assert es == [Own(AuthReady("m", account)), e] && es[..2] == es;
  }

  // ---------------------------------------------------------------- a connection of the name is opened

  lemma IsRegistrable(cfg: Config, p: Point, a: ConnId, provisional: Identity)
    requires Suits(cfg) && Feasible(cfg, p) && p.state.relay.relay.limits == cfg.limits
    requires forall c | c != a :: c !in p.state.relay.relay.conns
    requires a in p.state.relay.relay.conns ==> p.state.relay.relay.conns[a].Identity() != provisional
    ensures Indexed(p.state.relay.relay) && MayRegister(p.state.relay.relay, provisional)
  {
    var r := p.state.relay.relay;
    FeasibleIsReachable(cfg, p);
    RelayTheorems.IndexedIsInverse(r);
    assert !IsConnected(r, provisional);
    assert |r.conns| == |r.conns.Keys| && (r.conns.Keys == {} || r.conns.Keys == {a});
  }

  /** Somebody signs in from a connection of their own. */
  lemma Connects(
      cfg: Config, p: Point, a: ConnId, c: ConnId, provisional: Identity, token: string, account: Account)
      returns (p': Point)
    requires Suits(cfg) && Feasible(cfg, p) && p.wall == 0.0 && p.state.relay.relay.limits == cfg.limits
    requires forall d | d != a :: d !in p.state.relay.relay.conns
    requires a in p.state.relay.relay.conns ==> p.state.relay.relay.conns[a].Identity() != provisional
    requires c !in p.state.relay.tasks && provisional !in p.ids && c !in p.state.answers
    requires Accounts.Resolve(p.state.accounts.db, cfg.read(token), 0.0) == Accounts.Ok(account)
    requires account.username !in p.state.relay.relay.offline && p.now == 0.0
    ensures Prolongs(cfg, p, p') && p'.now == 0.0 && p'.ids == p.ids + {provisional} && p'.wall == 0.0
    ensures p'.state == p.state.(relay := p'.state.relay)
    ensures OnlyOwn(p.state.relay, p'.state.relay, c)
    ensures Serves(p'.state.relay, c, account, 1) && Silent(p'.state.relay, c)
    ensures p'.state.relay.relay.offline == p.state.relay.relay.offline
    ensures p'.state.relay.relay.history.accepted == p.state.relay.relay.history.accepted
  {
    IsRegistrable(cfg, p, a, provisional);
    var arrived := GoArrive(cfg, p, c, provisional);
    p' := GoSignIn(cfg, arrived, c, provisional, token, account);
    ProlongsTransitive(cfg, p, arrived, p');
    OnlyOwnTransitive(p.state.relay, arrived.state.relay, p'.state.relay, c);
  }

  /** Provisional ids longer than the name, and different from each other. */
  function Drawn(first: bool, name: Identity): (id: Identity)
    ensures |id| > |name| + 5 && id[5] == if first then '1' else '2'
  {
    (if first then "anon-1" else "anon-2") + name
  }

  // ---------------------------------------------------------------- the old connection still receives

  /** `c` belongs to a deleted account and `d` to the one that has its name now; what `d` sends under
      that name reaches `c`. */
  ghost predicate Inherited(s: State, c: ConnId, d: ConnId) {
    var r, db := s.relay.relay, s.accounts.db;
    && c in r.conns && r.conns[c].account.Some? && d in r.conns && r.conns[d].account.Some?
    && r.conns[c].account.value.username == r.conns[d].account.value.username
    && r.conns[c].account.value.userId !in db.users && r.conns[d].account.value.userId in db.users
    && r.conns[c].log != []
    && var e := r.conns[c].log[|r.conns[c].log| - 1];
       e.Routed? && e.stamp < |r.history.accepted| && r.history.accepted[e.stamp].origin == d
  }

  /** The first owner of the name has a connection, and no account any more. */
  ghost predicate Vacated(cfg: Config, p: Point, name: Identity) {
    var r, w := p.state.relay.relay, p.state.accounts;
    && Feasible(cfg, p) && p.now == 0.0 && p.wall == 0.0 && p.ids == {Drawn(true, name)} && p.state.answers == map[]
    && r.limits == cfg.limits && r.offline == map[]
    && OnlyOwn(RelaySystem.Start(cfg.limits), p.state.relay, "a")
    && Serves(p.state.relay, "a", Account("1", name, "s"), 1)
    && w.db.users == map[] && w.userIds == {"1"} && w.sessionIds == {"s"} && w.grants == [AccountRuns.Grant("r", "s")]
  }

  lemma FirstOwner(cfg: Config, name: Identity) returns (p: Point)
    requires Suits(cfg) && Identifiers.Acceptable(name)
    ensures Vacated(cfg, p, name)
  {
    OriginIsFeasible(cfg);
    var enrolled := Enrols(cfg, Origin(cfg), "1", name, "s", "r");
    var serving := Connects(cfg, enrolled, "a", "a", Drawn(true, name), "first", Account("1", name, "s"));
    p := Deletes(cfg, serving, "1", name);
  }

  /** The second registers it anew and connects. */
  lemma SecondOwner(cfg: Config, p: Point, name: Identity) returns (p': Point)
    requires Suits(cfg) && Identifiers.Acceptable(name) && Vacated(cfg, p, name)
    ensures Feasible(cfg, p') && p'.now == 0.0 && p'.state.relay.relay.limits == cfg.limits
    ensures Serves(p'.state.relay, "a", Account("1", name, "s"), 1)
    ensures Serves(p'.state.relay, "b", Account("2", name, "t"), 1) && Silent(p'.state.relay, "b")
    ensures p'.state.accounts.db.users.Keys == {"2"}
  {
    var enrolled := Enrols(cfg, p, "2", name, "t", "q");
    p' := Connects(cfg, enrolled, "a", "b", Drawn(false, name), "second", Account("2", name, "t"));
  }

  /** What the second owner sends under the name reaches the first one's connection. */
  lemma SecondSends(cfg: Config, p: Point, first: Account, second: Account) returns (last: Point)
    requires Suits(cfg) && Feasible(cfg, p) && p.now == 0.0 && p.state.relay.relay.limits == cfg.limits
    requires Serves(p.state.relay, "a", first, 1) && Serves(p.state.relay, "b", second, 1) && Silent(p.state.relay, "b")
    requires first.username == second.username && Indexed(p.state.relay.relay)
    requires first.userId !in p.state.accounts.db.users && second.userId in p.state.accounts.db.users
    ensures Prolongs(cfg, p, last) && Inherited(last.state, "a", "b")
  {
    Delivers(p.state.relay, "a", "b", first, second);
    last := GoAct(cfg, p, Receive("b", Send(second.username, first.username), cfg.limits.windowSeconds));
  }

  /** The exception of SharedIdentityIsSharedAccount is real: under any such configuration some possible
      run deletes an account, registers its name anew, and has a message under that name reach the
      connection of the deleted account. */
  lemma OldConnectionStillReceives(cfg: Config, name: Identity)
    requires Suits(cfg) && Identifiers.Acceptable(name)
    ensures exists p, c, d :: Feasible(cfg, p) && Inherited(p.state, c, d)
  {
    var first := FirstOwner(cfg, name);
    var second := SecondOwner(cfg, first, name);
    FeasibleIsReachable(cfg, second);
    var last := SecondSends(cfg, second, Account("1", name, "s"), Account("2", name, "t"));
  }

  // ---------------------------------------------------------------- the new owner receives what was meant for the old

  /** At `early` the user has the name and a message to it is queued; at `p` the user is gone and `c`,
      bound to another account of that name, has been handed the message. */
  ghost predicate Bequeathed(early: Point, p: Point, u: Accounts.Id, c: ConnId, receipt: Receipt) {
    var r := p.state.relay.relay;
    && u in early.state.accounts.db.users
    && early.state.accounts.db.users[u].username == receipt.recipient
    && Routed(receipt, 0) in OfflineQueues.QueueOf(early.state.relay.relay.offline, receipt.recipient)
    && u !in p.state.accounts.db.users
    && c in r.conns && r.conns[c].account.Some? && r.conns[c].account.value.username == receipt.recipient
    && r.conns[c].account.value.userId != u && r.conns[c].account.value.userId in p.state.accounts.db.users
    && r.conns[c].boundAt <= |r.conns[c].log| && Routed(receipt, 0) in r.conns[c].log[r.conns[c].boundAt..]
  }

  /** The sender has the only connection and has sent nothing. */
  ghost predicate Ready(cfg: Config, p: Point, name: Identity, other: Identity) {
    var r := p.state.relay.relay;
    && Feasible(cfg, p) && p.now == 0.0 && p.wall == 0.0 && p.ids == {Drawn(true, name + other)}
    && p.state.answers == map[] && r.limits == cfg.limits && r.offline == map[] && r.history.accepted == []
    && OnlyOwn(RelaySystem.Start(cfg.limits), p.state.relay, "a")
    && Serves(p.state.relay, "a", Account("3", other, "r"), 1) && Silent(p.state.relay, "a")
  }

  /** Somebody else registers and connects. */
  lemma SenderConnects(cfg: Config, name: Identity, other: Identity) returns (p: Point)
    requires Suits(cfg) && Identifiers.Acceptable(other)
    ensures Ready(cfg, p, name, other)
    ensures p.state.accounts.db.users == map["3" := NewUser(cfg.accounts, other)] && p.state.accounts.userIds == {"3"}
    ensures p.state.accounts.sessionIds == {"r"} && p.state.accounts.grants == [AccountRuns.Grant("x", "r")]
  {
    OriginIsFeasible(cfg);
    var enrolled := Enrols(cfg, Origin(cfg), "3", other, "r", "x");
    p := Connects(cfg, enrolled, "a", "a", Drawn(true, name + other), "third", Account("3", other, "r"));
  }

  /** The sender's is the only connection, and a message to the name is queued. */
  ghost predicate Waiting(cfg: Config, p: Point, name: Identity, other: Identity) {
    && Feasible(cfg, p) && p.wall == 0.0 && p.ids == {Drawn(true, name + other)} && p.state.answers == map[]
    && p.state.relay.relay.limits == cfg.limits
    && (forall c | c != "a" :: c !in p.state.relay.relay.conns && c !in p.state.relay.tasks)
    && ("a" in p.state.relay.relay.conns ==> p.state.relay.relay.conns["a"].Identity() == other)
    && p.state.relay.relay.offline == map[name := [Routed(ReceiptOf(other, name), 0)]]
  }

  lemma IsNotConnected(cfg: Config, p: Point, a: ConnId, other: Identity, name: Identity)
    requires cfg.Sound() && Feasible(cfg, p) && name != other
    requires forall c | c != a :: c !in p.state.relay.relay.conns
    requires a in p.state.relay.relay.conns && p.state.relay.relay.conns[a].Identity() == other
    ensures Indexed(p.state.relay.relay) && !IsConnected(p.state.relay.relay, name)
  {
    FeasibleIsReachable(cfg, p);
    RelayTheorems.IndexedIsInverse(p.state.relay.relay);
  }

  lemma MessageWaits(cfg: Config, p: Point, name: Identity, other: Identity) returns (early: Point)
    requires Suits(cfg) && name != other && Ready(cfg, p, name, other)
    ensures Waiting(cfg, early, name, other) && early.state.accounts == p.state.accounts
  {
    IsNotConnected(cfg, p, "a", other, name);
    Queues(p.state.relay, "a", Account("3", other, "r"), name);
    early := GoAct(cfg, p, Receive("a", Send(other, name), cfg.limits.windowSeconds));
  }

  /** The sender's account and the owner's are the only ones ever registered. */
  ghost predicate BothRegistered(cfg: Config, w: AccountRuns.World, name: Identity, other: Identity) {
    && w.db.users == map["3" := NewUser(cfg.accounts, other), "1" := NewUser(cfg.accounts, name)]
    && w.userIds == {"3", "1"} && w.sessionIds == {"r", "s"}
    && w.grants == [AccountRuns.Grant("x", "r"), AccountRuns.Grant("y", "s")]
  }

  /** The owner of the name registers before the message is sent. */
  lemma OwnerWaits(cfg: Config, name: Identity, other: Identity) returns (early: Point)
    requires Suits(cfg) && Identifiers.Acceptable(name) && Identifiers.Acceptable(other) && name != other
    ensures Waiting(cfg, early, name, other)
    ensures BothRegistered(cfg, early.state.accounts, name, other)
  {
    var p := SenderConnects(cfg, name, other);
    assert Accounts.Named(p.state.accounts.db, name) == {};
    var enrolled := Enrols(cfg, p, "1", name, "s", "y");
    early := MessageWaits(cfg, enrolled, name, other);
  }

  /** The account is deleted, and its name registered by somebody else. */
  lemma NameChangesHands(cfg: Config, early: Point, name: Identity, other: Identity) returns (p: Point)
    requires Suits(cfg) && Identifiers.Acceptable(name) && name != other && Waiting(cfg, early, name, other)
    requires BothRegistered(cfg, early.state.accounts, name, other)
    ensures Prolongs(cfg, early, p) && Waiting(cfg, p, name, other)
    ensures p.state.accounts.db.users.Keys == {"3", "2"}
    ensures Accounts.Resolve(p.state.accounts.db, cfg.read("second"), 0.0) == Accounts.Ok(Account("2", name, "t"))
  {
    var deleted := Deletes(cfg, early, "1", name);
    assert Accounts.Named(deleted.state.accounts.db, name) == {};
    p := Enrols(cfg, deleted, "2", name, "t", "z");
    ProlongsTransitive(cfg, early, deleted, p);
  }

  /** The new owner connects, and is handed the message. */
  lemma SuccessorConnects(cfg: Config, p: Point, name: Identity, other: Identity) returns (p': Point)
    requires Suits(cfg) && Waiting(cfg, p, name, other)
    requires Accounts.Resolve(p.state.accounts.db, cfg.read("second"), 0.0) == Accounts.Ok(Account("2", name, "t"))
    ensures Prolongs(cfg, p, p') && p'.state.accounts == p.state.accounts
    ensures var r := p'.state.relay.relay;
            && "b" in r.conns && r.conns["b"].account == Some(Account("2", name, "t"))
            && r.conns["b"].boundAt <= |r.conns["b"].log|
            && Routed(ReceiptOf(other, name), 0) in r.conns["b"].log[r.conns["b"].boundAt..]
  {
    var provisional, account := Drawn(false, name + other), Account("2", name, "t");
    var e := Routed(ReceiptOf(other, name), 0);
    IsRegistrable(cfg, p, "a", provisional);
    var arrived := GoArrive(cfg, p, "b", provisional);
    var presented := GoPresent(cfg, arrived, "b", provisional, "second");
    BindsBacklog(presented.state.relay, "b", provisional, "second", account, e);
    p' := GoBind(cfg, presented, "b", "second", account);
    ProlongsTransitive(cfg, p, arrived, presented);
    ProlongsTransitive(cfg, p, presented, p');
    var ctx := p'.state.relay.relay.conns["b"];
    assert ctx.log[ctx.boundAt..] == [Own(AuthReady("m", account)), e];
  }

  /** The exception of MessageReachesItsOwner is real: some possible run queues a message for the owner of
      a name, deletes the account, registers the name anew, and hands the message to its new owner. */
  lemma BacklogIsBequeathed(cfg: Config, name: Identity, other: Identity)
    requires Suits(cfg) && Identifiers.Acceptable(name) && Identifiers.Acceptable(other)
    requires name != other
    ensures exists early, p, u, c, receipt :: Since(cfg, early, p) && Bequeathed(early, p, u, c, receipt)
  {
    var early := OwnerWaits(cfg, name, other);
    var changed := NameChangesHands(cfg, early, name, other);
    var p := SuccessorConnects(cfg, changed, name, other);
    ProlongsTransitive(cfg, early, changed, p);
    assert Since(cfg, early, p);
    assert Bequeathed(early, p, "1", "b", ReceiptOf(other, name));
  }
}
