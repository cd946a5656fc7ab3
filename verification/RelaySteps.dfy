/**
 Runs the relay can really perform, and the first steps of a connection in them. The system of
 RelaySystem leaves clock readings and provisional ids open, so that what is proved of all its runs
 needs no assumption about them; the runs given as evidence keep to a clock that does not go back, to
 fresh provisional ids, and to events that are enabled.
 */
module RelaySteps {
  import opened Prelude
  import opened RelayModel
  import opened RelaySystem
  import opened RelayFates
  import RelayRuns
  import RateLimiting

  /** A state, the latest reading of the clock, and the provisional ids drawn so far. */
  datatype Moment = Moment(world: World, now: Instant, ids: set<Identity>)

  function Beginning(limits: Limits): Moment {
    Moment(Start(limits), 0.0, {})
  }

  predicate May(m: Moment, e: Event) {
    && Enabled(m.world, e)
    && (e.Receive? ==> e.now >= m.now)
    && (e.Open? ==> e.provisional !in m.ids)
  }

  function After(m: Moment, e: Event): Moment {
    Moment(Apply(m.world, e), if e.Receive? then e.now else m.now, if e.Open? then m.ids + {e.provisional} else m.ids)
  }

  /** Where a run from the beginning leads. */
  function Passed(limits: Limits, events: seq<Event>): Moment {
    if events == [] then Beginning(limits) else After(Passed(limits, events[..|events| - 1]), events[|events| - 1])
  }

  /** Each of its events may happen when it does. */
  predicate Possible(limits: Limits, events: seq<Event>) {
    events == [] ||
    (Possible(limits, events[..|events| - 1]) && May(Passed(limits, events[..|events| - 1]), events[|events| - 1]))
  }

  ghost predicate Reaches(limits: Limits, m: Moment) {
    limits.Positive() && exists events :: Possible(limits, events) && m == Passed(limits, events)
  }

  lemma ReachesBeginning(limits: Limits)
    requires limits.Positive()
    ensures Reaches(limits, Beginning(limits))
  {
    assert Possible(limits, []) && Beginning(limits) == Passed(limits, []);
  }

  /** One more event of the run. */
  lemma Step(limits: Limits, m: Moment, e: Event) returns (m': Moment)
    requires Reaches(limits, m) && May(m, e)
    ensures m' == After(m, e) && Reaches(limits, m')
  {
    m' := After(m, e);
    var events :| Possible(limits, events) && m == Passed(limits, events);
    var more := events + [e];
    assert more[..|more| - 1] == events;
    assert Possible(limits, more) && m' == Passed(limits, more);
  }

  lemma {:induction false} PassedIsExec(limits: Limits, events: seq<Event>)
    ensures Passed(limits, events).world == Exec(Start(limits), events)
  {
    if events == [] {
    } else {
      PassedIsExec(limits, events[..|events| - 1]);
    }
  }

  /** What is proved of all runs holds of these. */
  lemma ReachesIsReachable(limits: Limits, m: Moment)
    requires Reaches(limits, m)
    ensures RelayRuns.Reachable(m.world) && RelayRuns.Good(m.world)
  {
    var events :| Possible(limits, events) && m == Passed(limits, events);
    PassedIsExec(limits, events);
    RelayRuns.Always(limits, events);
  }

  // ---------------------------------------------------------------- what one step leaves alone

  /** Everything but the record and the task of `c` is the same. */
  ghost predicate OnlyOwn(w: World, w': World, c: ConnId) {
    && w'.relay.limits == w.relay.limits
    && (forall d | d != c :: d in w'.relay.conns <==> d in w.relay.conns)
    && (forall d | d != c && d in w.relay.conns :: w'.relay.conns[d] == w.relay.conns[d])
    && (forall d | d != c :: d in w'.tasks <==> d in w.tasks)
    && (forall d | d != c && d in w.tasks :: w'.tasks[d] == w.tasks[d])
  }

  lemma OnlyOwnTransitive(u: World, v: World, w: World, c: ConnId)
    requires OnlyOwn(u, v, c) && OnlyOwn(v, w, c)
    ensures OnlyOwn(u, w, c)
  {
  }

  lemma OneConnectionMore(w: World, w': World, c: ConnId)
    requires OnlyOwn(w, w', c) && c !in w.relay.conns && c in w'.relay.conns
    ensures w'.relay.conns.Keys == w.relay.conns.Keys + {c} && |w'.relay.conns| == |w.relay.conns| + 1
  {
    assert w'.relay.conns.Keys == w.relay.conns.Keys + {c};
    assert |w'.relay.conns| == |w'.relay.conns.Keys| && |w.relay.conns| == |w.relay.conns.Keys|;
  }

  /** The offline queue, the index and the history are the same, too. */
  ghost predicate Local(w: World, w': World, c: ConnId) {
    && OnlyOwn(w, w', c)
    && c in w.tasks && c in w'.tasks && c in w.relay.conns && c in w'.relay.conns
    && w'.relay.offline == w.relay.offline && w'.relay.byClient == w.relay.byClient
    && w'.relay.history == w.relay.history
  }

  predicate AllOwn(es: seq<Entry>) {
    forall i | 0 <= i < |es| :: es[i].Own?
  }

  /** No routed message was ever put into the connection's queue. */
  ghost predicate Plain(w: World, c: ConnId) {
    AllOwn(LogOf(w, c))
  }

  // ---------------------------------------------------------------- the steps of a connection

  /** The connection, not authenticated, is in this phase with `n` messages pending. */
  ghost predicate Midway(w: World, c: ConnId, provisional: Identity, phase: Phase, n: nat) {
    && w.relay.limits.Positive()
    && c in w.tasks && w.tasks[c].phase == phase
    && c in w.relay.conns && w.relay.conns[c].account.None? && !w.relay.conns[c].closing
    && w.relay.conns[c].provisional == provisional && |w.relay.conns[c].pending| == n
    && Plain(w, c)
  }

  /** It serves the account. */
  ghost predicate Serves(w: World, c: ConnId, account: Account, n: nat) {
    && w.relay.limits.Positive()
    && c in w.tasks && w.tasks[c].phase.Serving?
    && c in w.relay.conns && w.relay.conns[c].account == Some(account) && !w.relay.conns[c].closing
    && |w.relay.conns[c].pending| == n
  }

  lemma Opens(w: World, c: ConnId, provisional: Identity)
    requires w.relay.limits.Positive() && c !in w.tasks && c !in w.relay.conns && MayRegister(w.relay, provisional)
    ensures var w' := Apply(w, Open(c, provisional));
            && OnlyOwn(w, w', c) && Midway(w', c, provisional, Accepting, 0)
            && w'.relay.conns[c].limiter == RateLimiting.FRESH
            && !w'.tasks[c].accepted && w'.tasks[c].writer.NotStarted?
            && w'.relay.byClient == IndexAdd(w.relay.byClient, provisional, c)
            && w'.relay.offline == w.relay.offline && w'.relay.history == w.relay.history
  {
  }

  lemma Accepts(w: World, c: ConnId, provisional: Identity)
    requires Midway(w, c, provisional, Accepting, 0)
    ensures var w' := Apply(w, Accept(c, true));
            && Local(w, w', c) && Midway(w', c, provisional, Serving, 1)
            && w'.relay.conns[c].limiter == w.relay.conns[c].limiter
            && w'.tasks[c].accepted && w'.tasks[c].writer.Waiting?
  {
    assert AllOwn(w.relay.conns[c].log);
  }

  /** The writer takes connection.ready and is about to send it. */
  lemma Takes(w: World, c: ConnId, provisional: Identity)
    requires Midway(w, c, provisional, Serving, 1) && w.tasks[c].writer.Waiting?
    ensures var w' := Apply(w, Take(c));
            && Local(w, w', c) && Midway(w', c, provisional, Serving, 0)
            && w'.relay.conns[c].limiter == w.relay.conns[c].limiter
            && w'.tasks[c].accepted == w.tasks[c].accepted && w'.tasks[c].writer.Sending?
  {
    assert AllOwn(w.relay.conns[c].log);
  }

  function Authenticate(token: string): Frame {
    Frame(0, Object(Some("m"), true, Sendable(AuthAuthenticate), Some(Fields("m", "", None, "", "", Presented(token)))))
  }

  function Send(sender: Identity, recipient: Identity): Frame {
    var fields := Fields("m", sender, Some(recipient), "", "", Unacceptable);
    Frame(0, Object(Some("m"), true, Sendable(MessageSend), Some(fields)))
  }

  /** The connection's first frame that counts presents a token; nothing is put. */
  lemma Presents(w: World, c: ConnId, provisional: Identity, token: string, n: nat, now: Instant)
    requires Midway(w, c, provisional, Serving, n) && w.relay.conns[c].limiter == RateLimiting.FRESH
    ensures var w' := Apply(w, Receive(c, Authenticate(token), now));
            && Local(w, w', c) && Midway(w', c, provisional, Resolving("m", token), n)
            && w'.relay.conns[c].limiter == RateLimiting.Tick(RateLimiting.FRESH, w.relay.limits.windowSeconds, now)
            && w'.relay.conns[c].pending == w.relay.conns[c].pending
            && w'.tasks[c].accepted == w.tasks[c].accepted && w'.tasks[c].writer == w.tasks[c].writer
  {
    assert AllOwn(w.relay.conns[c].log);
  }

  /** The token is resolved, with no backlog and room for auth.ready. */
  lemma Binds(w: World, c: ConnId, provisional: Identity, token: string, n: nat, account: Account)
    requires Midway(w, c, provisional, Resolving("m", token), n) && n < w.relay.limits.maxPendingOutbound
    requires account.username !in w.relay.offline
    ensures var w' := Apply(w, Resolve(c, Some(account)));
            && OnlyOwn(w, w', c) && Serves(w', c, account, n + 1) && Plain(w', c)
            && w'.relay.conns[c].limiter == w.relay.conns[c].limiter
            && w'.relay.byClient == IndexAdd(IndexRemove(w.relay.byClient, provisional, c), account.username, c)
            && w'.relay.offline == w.relay.offline && w'.relay.history.accepted == w.relay.history.accepted
            && w'.tasks[c].accepted == w.tasks[c].accepted && w'.tasks[c].writer == w.tasks[c].writer
  {
    assert AllOwn(w.relay.conns[c].log);
  }

  /** A frame too large for the relay is answered before the limiter sees it. */
  lemma IsTooLarge(w: World, c: ConnId, provisional: Identity, n: nat, now: Instant)
    requires Midway(w, c, provisional, Serving, n) && n < w.relay.limits.maxPendingOutbound
    ensures var w' := Apply(w, Receive(c, Frame(w.relay.limits.maxMessageBytes + 1, NotJson), now));
            && Local(w, w', c) && Midway(w', c, provisional, Serving, n + 1)
            && w'.relay.conns[c].limiter == w.relay.conns[c].limiter
            && w'.tasks[c].accepted == w.tasks[c].accepted && w'.tasks[c].writer == w.tasks[c].writer
  {
    assert AllOwn(w.relay.conns[c].log);
  }

  // ---------------------------------------------------------------- from the upgrade to the account

  /** The connection has been accepted, and its writer is sending connection.ready. */
  ghost predicate Arrived(w: World, c: ConnId, provisional: Identity, n: nat) {
    && Midway(w, c, provisional, Serving, n) && w.relay.conns[c].limiter == RateLimiting.FRESH
    && w.tasks[c].accepted && w.tasks[c].writer.Sending?
  }

  lemma Arrives(limits: Limits, m: Moment, c: ConnId, provisional: Identity) returns (m': Moment)
    requires Reaches(limits, m) && m.world.relay.limits == limits
    requires c !in m.world.tasks && provisional !in m.ids && MayRegister(m.world.relay, provisional)
    ensures Reaches(limits, m') && m'.now == m.now && m'.ids == m.ids + {provisional}
    ensures OnlyOwn(m.world, m'.world, c) && Arrived(m'.world, c, provisional, 0)
    ensures m'.world.relay.byClient == IndexAdd(m.world.relay.byClient, provisional, c)
    ensures m'.world.relay.offline == m.world.relay.offline && m'.world.relay.history == m.world.relay.history
  {
    ReachesIsReachable(limits, m);
    Opens(m.world, c, provisional);
    var entered := Step(limits, m, Open(c, provisional));
    Accepts(entered.world, c, provisional);
    var accepted := Step(limits, entered, Accept(c, true));
    Takes(accepted.world, c, provisional);
    m' := Step(limits, accepted, Take(c));
    OnlyOwnTransitive(m.world, entered.world, accepted.world, c);
    OnlyOwnTransitive(m.world, accepted.world, m'.world, c);
  }

  lemma AddThenRemove(index: map<Identity, set<ConnId>>, id: Identity, c: ConnId)
    requires id !in index
    ensures IndexRemove(IndexAdd(index, id, c), id, c) == index
  {
  }

  /** A connection that has arrived presents a token and is bound to the account it stands for. */
  lemma SignsIn(
      limits: Limits, m: Moment, c: ConnId, provisional: Identity, token: string, account: Account, now: Instant)
      returns (m': Moment)
    requires Reaches(limits, m) && m.world.relay.limits == limits && now >= m.now
    requires Arrived(m.world, c, provisional, 0) && account.username !in m.world.relay.offline
    ensures Reaches(limits, m') && m'.now == now && m'.ids == m.ids
    ensures OnlyOwn(m.world, m'.world, c) && Serves(m'.world, c, account, 1) && Plain(m'.world, c)
    ensures m'.world.relay.conns[c].limiter == RateLimiting.Tick(RateLimiting.FRESH, limits.windowSeconds, now)
    ensures m'.world.tasks[c].accepted && m'.world.tasks[c].writer.Sending?
    ensures m'.world.relay.byClient
            == IndexAdd(IndexRemove(m.world.relay.byClient, provisional, c), account.username, c)
    ensures m'.world.relay.offline == m.world.relay.offline
    ensures m'.world.relay.history.accepted == m.world.relay.history.accepted
  {
    Presents(m.world, c, provisional, token, 0, now);
    var presented := Step(limits, m, Receive(c, Authenticate(token), now));
    Binds(presented.world, c, provisional, token, 0, account);
    m' := Step(limits, presented, Resolve(c, Some(account)));
    OnlyOwnTransitive(m.world, presented.world, m'.world, c);
  }
}
