/** What became of the messages the relay answered `queued`. */
module RelayBacklogs {
  import opened Prelude
  import opened RelayModel
  import opened RelaySystem
  import opened RelayInvariants
  import opened RelayRouting
  import opened RelayTasks
  import opened RelayRuns
  import opened RelayFates
  import OfflineQueues
  import RateLimiting

  // ---------------------------------------------------------------- what an authentication cuts off

  /** The part of the account's backlog for which the connection has no room next to auth.ready. */
  function Cut(r: Relay, c: ConnId, account: Account): seq<Entry>
    requires c in r.conns
  {
    var backlog := OfflineQueues.QueueOf(r.offline, account.username);
    var n := r.conns[c].Fitting(1 + |backlog|, r.limits.maxPendingOutbound);
    if n == 0 then backlog else backlog[n - 1..]
  }

  /** The part it has room for. */
  function Handed(r: Relay, c: ConnId, account: Account): seq<Entry>
    requires c in r.conns
  {
    var backlog := OfflineQueues.QueueOf(r.offline, account.username);
    var n := r.conns[c].Fitting(1 + |backlog|, r.limits.maxPendingOutbound);
    if n == 0 then [] else backlog[..n - 1]
  }

  function CutBy(w: World, e: Event): seq<Entry> {
    if Enabled(w, e) && e.Resolve? && e.resolved.Some? then Cut(w.relay, e.c, e.resolved.value) else []
  }

  /** All that was cut off in a run. */
  function Cuts(limits: Limits, events: seq<Event>): seq<Entry> {
    if events == [] then []
    else
      var most := events[..|events| - 1];
      Cuts(limits, most) + CutBy(Exec(Start(limits), most), events[|events| - 1])
  }

  // ---------------------------------------------------------------- logs between authentications

  /** A reply, or a message delivered live. */
  predicate Live(e: Entry, accepted: seq<Accepted>) {
    e.Own? || (e.stamp < |accepted| && accepted[e.stamp].status.Delivered?)
  }

  predicate LiveGain(a: seq<Entry>, b: seq<Entry>, accepted: seq<Accepted>) {
    a <= b && forall j | |a| <= j < |b| :: Live(b[j], accepted)
  }

  /** Every log gains live entries only. */
  predicate AllLive(r: Relay, r': Relay) {
    && r.history.accepted <= r'.history.accepted && r'.history.drained == r.history.drained
    && forall c | c in r.conns :: c in r'.conns && LiveGain(r.conns[c].log, r'.conns[c].log, r'.history.accepted)
  }

  lemma AllLiveTransitive(a: Relay, b: Relay, d: Relay)
    requires AllLive(a, b) && AllLive(b, d)
    ensures AllLive(a, d)
  {
    forall c | c in a.conns ensures LiveGain(a.conns[c].log, d.conns[c].log, d.history.accepted) {
      var p, q, s := a.conns[c].log, b.conns[c].log, d.conns[c].log;
      forall j | |p| <= j < |s| ensures Live(s[j], d.history.accepted) {
        if j < |q| {
          assert Live(q[j], b.history.accepted);
        }
      }
    }
  }

  lemma RespondIsLive(r: Relay, c: ConnId, es: seq<Entry>)
    requires c in r.conns && forall i | 0 <= i < |es| :: es[i].Own?
    ensures AllLive(r, Respond(r, c, es).relay)
  {
  }

  lemma RouteIsLive(r: Relay, c: ConnId, receipt: Receipt)
    requires r.limits.Positive()
    ensures AllLive(r, RouteMessage(r, c, receipt))
  {
    match StatusFor(r, receipt.recipient) {
      case Delivered =>
        DeliveryFrame(r, c, receipt);
        var e := Routed(receipt, |r.history.accepted|);
        forall d | d in r.conns
          ensures LiveGain(r.conns[d].log, RouteMessage(r, c, receipt).conns[d].log,
                           RouteMessage(r, c, receipt).history.accepted)
        {
          PutEffect(r.conns[d], e, r.limits.maxPendingOutbound);
        }
      case Queued => QueueingFrame(r, c, receipt);
      case RecipientUnavailable => RefusalChangesNothing(r, c, receipt);
    }
  }

  lemma SendIsLive(r: Relay, c: ConnId, env: Envelope)
    requires r.limits.Positive() && c in r.conns
    ensures AllLive(r, AfterSend(r, c, env)) && c in AfterSend(r, c, env).conns
  {
    if MaySend(r.conns[c], env) {
      var receipt := ReceiptFor(r.conns[c].Identity(), env.recipient.value, env);
      RouteGrows(r, c, receipt);
      RouteIsLive(r, c, receipt);
    }
  }

  lemma DispatchIsLive(r: Relay, c: ConnId, env: Envelope)
    requires r.limits.Positive() && c in r.conns
    ensures AllLive(r, Dispatch(r, c, env).relay)
  {
    match env.kind {
      case AuthAuthenticate =>
        RespondIsLive(r, c, [Own(ProtocolError(AlreadyAuthenticated, Some(env.messageId)))]);
        RespondIsLive(r, c, [Own(ProtocolError(AuthFailed, Some(env.messageId)))]);
      case HeartbeatPing =>
        RespondIsLive(r, c, [Own(HeartbeatPong(env.messageId))]);
      case QueueStatusRequest =>
        var n := |OfflineQueues.QueueOf(r.offline, r.conns[c].Identity())|;
        RespondIsLive(r, c, [Own(QueueStatus(env.messageId, n))]);
      case MessageSend =>
        SendIsLive(r, c, env);
        RespondIsLive(AfterSend(r, c, env), c, Owned(SendReplies(r, c, env)));
        AllLiveTransitive(r, AfterSend(r, c, env), Dispatch(r, c, env).relay);
    }
  }

  lemma ProcessIsLive(r: Relay, c: ConnId, body: Body)
    requires r.limits.Positive() && c in r.conns
    ensures AllLive(r, Process(r, c, body).relay)
  {
    match ValidateInbound(r.conns[c].account.Some?, body) {
      case Refused(error) => RespondIsLive(r, c, [Own(error)]);
      case Valid(env) => DispatchIsLive(r, c, env);
    }
  }

  lemma FrameIsLive(r: Relay, c: ConnId, frame: Frame, now: Instant)
    requires r.limits.Positive() && c in r.conns
    ensures AllLive(r, HandleFrame(r, c, frame, now).relay)
  {
    if frame.bytes > r.limits.maxMessageBytes {
      RespondIsLive(r, c, [Own(ProtocolError(MessageTooLarge, None))]);
    } else {
      var ctx := r.conns[c];
      var counted := SetContext(r, c, ctx.(limiter := RateLimiting.Tick(ctx.limiter, r.limits.windowSeconds, now)));
      assert AllLive(r, counted);
      RespondIsLive(counted, c, [Own(ProtocolError(RateLimited, None))]);
      ProcessIsLive(counted, c, frame.body);
      AllLiveTransitive(r, counted, HandleFrame(r, c, frame, now).relay);
    }
  }

  // ---------------------------------------------------------------- one event

  /** The event hands over no backlog. */
  predicate HandsOverNothing(e: Event) {
    !(e.Resolve? && e.resolved.Some?)
  }

  lemma ReceiveGainsLive(w: World, d: ConnId, frame: Frame, now: Instant, c: ConnId)
    requires w.relay.limits.Positive() && Enabled(w, Receive(d, frame, now))
    ensures var w' := Effect(w, Receive(d, frame, now));
            LiveGain(LogOf(w, c), LogOf(w', c), w'.relay.history.accepted)
            && w'.relay.history.drained == w.relay.history.drained
  {
    var o := HandleFrame(w.relay, d, frame, now);
    HandleFrameGrows(w.relay, d, frame, now);
    FrameIsLive(w.relay, d, frame, now);
    ProceedKeepsLog(w, d, o, c);
  }

  lemma FailureGainsLive(w: World, d: ConnId, c: ConnId)
    requires Enabled(w, Resolve(d, None))
    ensures var w' := Effect(w, Resolve(d, None));
            LiveGain(LogOf(w, c), LogOf(w', c), w'.relay.history.accepted) && w'.relay.history == w.relay.history
  {
  }

  lemma DeadlineGainsLive(w: World, d: ConnId, c: ConnId)
    requires Enabled(w, Deadline(d))
    ensures var w' := Effect(w, Deadline(d));
            LiveGain(LogOf(w, c), LogOf(w', c), w'.relay.history.accepted) && w'.relay.history == w.relay.history
  {
  }

  lemma OwnGainsLive(w: World, e: Event, c: ConnId)
    requires Enabled(w, e) && (e.Accept? || e.Take? || e.Settle? || e.StopWriter? || e.Leave?)
    ensures var w' := Effect(w, e);
            LiveGain(LogOf(w, c), LogOf(w', c), w'.relay.history.accepted) && w'.relay.history == w.relay.history
  {
    PutAllGrows(w.relay.conns[e.c], [Own(ConnectionReady(e.c))], w.relay.limits.maxPendingOutbound);
  }

  lemma ComingAndGoingGainNothing(w: World, e: Event, c: ConnId)
    requires Consistent(w) && Enabled(w, e) && (e.Open? || e.Finish?)
    ensures LogOf(Effect(w, e), c) == LogOf(w, c) && Effect(w, e).relay.history == w.relay.history
  {
    if e.Open? {
      assert e.c !in w.relay.conns;
    }
  }

  lemma StepGainsLive(w: World, e: Event, c: ConnId)
    requires Good(w) && HandsOverNothing(e)
    ensures var w' := Apply(w, e);
            LiveGain(LogOf(w, c), LogOf(w', c), w'.relay.history.accepted)
            && w'.relay.history.drained == w.relay.history.drained
  {
    if Enabled(w, e) {
      if e.Receive? {
        ReceiveGainsLive(w, e.c, e.frame, e.now, c);
      } else if e.Resolve? {
        FailureGainsLive(w, e.c, c);
      } else if e.Deadline? {
        DeadlineGainsLive(w, e.c, c);
      } else if e.Open? || e.Finish? {
        ComingAndGoingGainNothing(w, e, c);
      } else {
        OwnGainsLive(w, e, c);
      }
    }
  }

  // ---------------------------------------------------------------- entries of the offline queue

  ghost predicate Drained(h: History, e: Entry) {
    exists id :: e in DrainedFor(h, id)
  }

  ghost predicate InLog(w: World, e: Entry) {
    exists c :: e in LogOf(w, c)
  }

  lemma QueuedEntries(r: Relay, id: Identity, e: Entry)
    requires Conserved(r) && (e in DrainedFor(r.history, id) || e in OfflineQueues.QueueOf(r.offline, id))
    ensures e.Routed? && WasQueued(e, r.history.accepted) && Matches(e, id, r.history.accepted)
  {
    var all := QueuedFor(r.history.accepted, id);
    assert all == DrainedFor(r.history, id) + OfflineQueues.QueueOf(r.offline, id);
    QueuedForInOrder(r.history.accepted, id);
    assert e in all;
    var i :| 0 <= i < |all| && all[i] == e;
    assert Matches(all[i], id, r.history.accepted);
  }

  lemma AllQueuedDiffer(accepted: seq<Accepted>, id: Identity, i: nat, j: nat)
    requires i < j < |QueuedFor(accepted, id)|
    ensures QueuedFor(accepted, id)[i] != QueuedFor(accepted, id)[j]
  {
    QueuedForInOrder(accepted, id);
    var all := QueuedFor(accepted, id);
    assert all[i] in all && all[j] in all;
  }

  lemma QueuedIsNotDrainedForIt(r: Relay, id: Identity, e: Entry)
    requires Conserved(r) && e in OfflineQueues.QueueOf(r.offline, id)
    ensures e !in DrainedFor(r.history, id)
  {
    var drained, queue := DrainedFor(r.history, id), OfflineQueues.QueueOf(r.offline, id);
    var all := QueuedFor(r.history.accepted, id);
    assert all == drained + queue;
    var j :| 0 <= j < |queue| && queue[j] == e;
    forall i | 0 <= i < |drained| ensures drained[i] != e {
      AllQueuedDiffer(r.history.accepted, id, i, |drained| + j);
    }
  }

  /** What is queued has not been drained. */
  lemma QueuedIsNotDrained(r: Relay, id: Identity, e: Entry)
    requires Conserved(r) && e in OfflineQueues.QueueOf(r.offline, id)
    ensures !Drained(r.history, e)
  {
    QueuedEntries(r, id, e);
    QueuedIsNotDrainedForIt(r, id, e);
    forall other ensures e !in DrainedFor(r.history, other) {
      if other != id && e in DrainedFor(r.history, other) {
        QueuedEntries(r, other, e);
      }
    }
  }

  lemma QueueIsDistinct(r: Relay, id: Identity, i: nat, j: nat)
    requires Conserved(r) && i < j < |OfflineQueues.QueueOf(r.offline, id)|
    ensures OfflineQueues.QueueOf(r.offline, id)[i] != OfflineQueues.QueueOf(r.offline, id)[j]
  {
    var n := |DrainedFor(r.history, id)|;
    assert QueuedFor(r.history.accepted, id) == DrainedFor(r.history, id) + OfflineQueues.QueueOf(r.offline, id);
    AllQueuedDiffer(r.history.accepted, id, n + i, n + j);
  }

  lemma {:induction false} QueuedForHasAll(accepted: seq<Accepted>, i: nat)
    requires i < |accepted| && accepted[i].status.Queued?
    ensures Routed(accepted[i].receipt, i) in QueuedFor(accepted, accepted[i].receipt.recipient)
  {
    if i == |accepted| - 1 {
    } else {
      QueuedForHasAll(accepted[..|accepted| - 1], i);
    }
  }

  // ---------------------------------------------------------------- what every run keeps

  /** What was cut off has left the offline queue and is in no log. */
  ghost predicate CutsAreLost(w: World, cuts: seq<Entry>) {
    forall e | e in cuts :: Drained(w.relay.history, e) && !InLog(w, e)
  }

  /** What was drained is in some log, or was cut off. */
  ghost predicate DrainedIsSettled(w: World, cuts: seq<Entry>) {
    forall id, e | e in DrainedFor(w.relay.history, id) :: InLog(w, e) || e in cuts
  }

  /** A routed message in a log was delivered live or drained. */
  ghost predicate Explained(e: Entry, h: History) {
    e.Routed? ==> e.stamp < |h.accepted| && (h.accepted[e.stamp].status.Delivered? || Drained(h, e))
  }

  ghost predicate LogsExplained(w: World) {
    forall c, e | e in LogOf(w, c) :: Explained(e, w.relay.history)
  }

  ghost predicate Accounted(w: World, cuts: seq<Entry>) {
    CutsAreLost(w, cuts) && DrainedIsSettled(w, cuts) && LogsExplained(w)
  }

  lemma NewIsLive(w: World, e: Event, c: ConnId, d: Entry)
    requires Good(w) && HandsOverNothing(e) && d in LogOf(Apply(w, e), c) && d !in LogOf(w, c)
    ensures Live(d, Apply(w, e).relay.history.accepted)
  {
    StepGainsLive(w, e, c);
    var b := LogOf(Apply(w, e), c);
    var j :| 0 <= j < |b| && b[j] == d;
  }

  lemma DrainedIsNotNew(w: World, e: Event, c: ConnId, d: Entry)
    requires Good(w) && HandsOverNothing(e) && Drained(w.relay.history, d)
    ensures d in LogOf(Apply(w, e), c) <==> d in LogOf(w, c)
  {
    var id :| d in DrainedFor(w.relay.history, id);
    QueuedEntries(w.relay, id, d);
    StepHandsOver(w, e);
    StepKeepsLog(w, e, c);
    if d in LogOf(Apply(w, e), c) && d !in LogOf(w, c) {
      NewIsLive(w, e, c, d);
    }
  }

  lemma DrainedStaysPut(w: World, e: Event, d: Entry)
    requires Good(w) && HandsOverNothing(e) && Drained(w.relay.history, d)
    ensures InLog(Apply(w, e), d) <==> InLog(w, d)
  {
    forall c ensures d in LogOf(Apply(w, e), c) <==> d in LogOf(w, c) {
      DrainedIsNotNew(w, e, c, d);
    }
  }

  lemma ExplainedLater(d: Entry, h: History, h': History)
    requires Explained(d, h) && h.accepted <= h'.accepted && h'.drained == h.drained
    ensures Explained(d, h')
  {
    if d.Routed? && Drained(h, d) {
      var id :| d in DrainedFor(h, id);
      assert d in DrainedFor(h', id);
    }
  }

  lemma QuietKeepsExplained(w: World, e: Event)
    requires Good(w) && HandsOverNothing(e) && LogsExplained(w)
    ensures LogsExplained(Apply(w, e))
  {
    var w' := Apply(w, e);
    StepHandsOver(w, e);
    StepGainsLive(w, e, "");
    forall c, d | d in LogOf(w', c) ensures Explained(d, w'.relay.history) {
      if d in LogOf(w, c) {
        ExplainedLater(d, w.relay.history, w'.relay.history);
      } else {
        NewIsLive(w, e, c, d);
      }
    }
  }

  lemma QuietKeepsCutsLost(w: World, e: Event, cuts: seq<Entry>)
    requires Good(w) && HandsOverNothing(e) && CutsAreLost(w, cuts)
    ensures CutsAreLost(Apply(w, e), cuts)
  {
    var w' := Apply(w, e);
    StepGainsLive(w, e, "");
    forall d | d in cuts ensures Drained(w'.relay.history, d) && !InLog(w', d) {
      assert Drained(w.relay.history, d) && !InLog(w, d);
      var id :| d in DrainedFor(w.relay.history, id);
      assert d in DrainedFor(w'.relay.history, id);
      DrainedStaysPut(w, e, d);
    }
  }

  lemma QuietKeepsSettled(w: World, e: Event, cuts: seq<Entry>)
    requires Good(w) && HandsOverNothing(e) && DrainedIsSettled(w, cuts)
    ensures DrainedIsSettled(Apply(w, e), cuts)
  {
    var w' := Apply(w, e);
    StepGainsLive(w, e, "");
    forall id, d | d in DrainedFor(w'.relay.history, id) ensures InLog(w', d) || d in cuts {
      assert d in DrainedFor(w.relay.history, id);
      DrainedStaysPut(w, e, d);
    }
  }

  // ---------------------------------------------------------------- an authentication

  lemma ReplayPuts(r: Relay, c: ConnId, messageId: string, account: Account)
    requires c in r.conns
    ensures var o := FinishAuthentication(r, c, messageId, Some(account));
            && o.relay.conns.Keys == r.conns.Keys
            && (forall d | d in r.conns && d != c :: o.relay.conns[d].log == r.conns[d].log)
            && (forall e :: e in o.relay.conns[c].log ==>
                  e in r.conns[c].log || e.Own? || e in Handed(r, c, account))
            && (forall e | e in r.conns[c].log || e in Handed(r, c, account) :: e in o.relay.conns[c].log)
            && o.relay.history.accepted == r.history.accepted
            && (forall id :: DrainedFor(o.relay.history, id)
                  == DrainedFor(r.history, id)
                     + if id == account.username then OfflineQueues.QueueOf(r.offline, id) else [])
  {
    BoundFrame(r, c, account);
    var backlog := OfflineQueues.QueueOf(r.offline, account.username);
    var es := [Own(AuthReady(messageId, account))] + backlog;
    var n := r.conns[c].Fitting(|es|, r.limits.maxPendingOutbound);
    if n > 0 {
      assert es[..n] == [es[0]] + backlog[..n - 1];
    }
  }

  /** Who has which entry after a connection has been bound. */
  lemma ResolveHands(w: World, c: ConnId, account: Account)
    requires Enabled(w, Resolve(c, Some(account)))
    ensures var w' := Effect(w, Resolve(c, Some(account)));
            && (forall e: Entry | e.Routed? :: InLog(w', e) <==> InLog(w, e) || e in Handed(w.relay, c, account))
            && w'.relay.history.accepted == w.relay.history.accepted
            && (forall id :: DrainedFor(w'.relay.history, id)
                  == DrainedFor(w.relay.history, id)
                     + if id == account.username then OfflineQueues.QueueOf(w.relay.offline, id) else [])
  {
    ReplayPuts(w.relay, c, w.tasks[c].phase.messageId, account);
    var w' := Effect(w, Resolve(c, Some(account)));
    forall d | d != c ensures LogOf(w', d) == LogOf(w, d) {
    }
    forall e: Entry | e.Routed? && InLog(w, e) ensures InLog(w', e) {
      var d :| e in LogOf(w, d);
      assert e in LogOf(w', d);
    }
    forall e: Entry | e.Routed? && InLog(w', e) ensures InLog(w, e) || e in Handed(w.relay, c, account) {
      var d :| e in LogOf(w', d);
      assert d != c ==> e in LogOf(w, d);
      assert d == c ==> e in LogOf(w, c) || e in Handed(w.relay, c, account);
    }
    forall e: Entry | e.Routed? && e in Handed(w.relay, c, account) ensures InLog(w', e) {
      assert e in LogOf(w', c);
    }
  }

  lemma HandedOrCut(r: Relay, c: ConnId, account: Account, e: Entry)
    requires c in r.conns
    ensures e in OfflineQueues.QueueOf(r.offline, account.username) <==>
            e in Handed(r, c, account) || e in Cut(r, c, account)
    ensures Conserved(r) ==> !(e in Handed(r, c, account) && e in Cut(r, c, account))
  {
    var backlog := OfflineQueues.QueueOf(r.offline, account.username);
    var handed, cut := Handed(r, c, account), Cut(r, c, account);
    assert backlog == handed + cut;
    if Conserved(r) && e in handed {
      var i :| 0 <= i < |handed| && handed[i] == e;
      forall j | 0 <= j < |cut| ensures cut[j] != e {
        QueueIsDistinct(r, account.username, i, |handed| + j);
      }
    }
  }

  lemma ResolveDrains(w: World, c: ConnId, account: Account, e: Entry)
    requires Enabled(w, Resolve(c, Some(account)))
    ensures Drained(Effect(w, Resolve(c, Some(account))).relay.history, e) <==>
            Drained(w.relay.history, e) || e in OfflineQueues.QueueOf(w.relay.offline, account.username)
  {
    ResolveHands(w, c, account);
    var h, h' := w.relay.history, Effect(w, Resolve(c, Some(account))).relay.history;
    if Drained(h, e) {
      var id :| e in DrainedFor(h, id);
      assert e in DrainedFor(h', id);
    }
    if e in OfflineQueues.QueueOf(w.relay.offline, account.username) {
      assert e in DrainedFor(h', account.username);
    }
    if Drained(h', e) {
      var id :| e in DrainedFor(h', id);
      assert e in DrainedFor(h, id) || e in OfflineQueues.QueueOf(w.relay.offline, account.username);
    }
  }

  lemma DrainedIsNotQueued(r: Relay, id: Identity, e: Entry)
    requires Conserved(r) && Drained(r.history, e)
    ensures e !in OfflineQueues.QueueOf(r.offline, id)
  {
    if e in OfflineQueues.QueueOf(r.offline, id) {
      QueuedIsNotDrained(r, id, e);
    }
  }

  lemma QueuedIsInNoLog(w: World, e: Entry)
    requires LogsExplained(w) && e.Routed? && WasQueued(e, w.relay.history.accepted) && !Drained(w.relay.history, e)
    ensures !InLog(w, e)
  {
    forall c ensures e !in LogOf(w, c) {
      assert e in LogOf(w, c) ==> Explained(e, w.relay.history);
    }
  }

  lemma ResolveKeepsCutsLost(w: World, c: ConnId, account: Account, cuts: seq<Entry>)
    requires Good(w) && Enabled(w, Resolve(c, Some(account))) && Accounted(w, cuts)
    ensures CutsAreLost(Effect(w, Resolve(c, Some(account))), cuts + Cut(w.relay, c, account))
  {
    var w' := Effect(w, Resolve(c, Some(account)));
    ResolveHands(w, c, account);
    forall e | e in cuts + Cut(w.relay, c, account) ensures Drained(w'.relay.history, e) && !InLog(w', e) {
      ResolveDrains(w, c, account, e);
      HandedOrCut(w.relay, c, account, e);
      if e in cuts {
        var id :| e in DrainedFor(w.relay.history, id);
        QueuedEntries(w.relay, id, e);
        DrainedIsNotQueued(w.relay, account.username, e);
      } else {
        QueuedEntries(w.relay, account.username, e);
        QueuedIsNotDrained(w.relay, account.username, e);
        QueuedIsInNoLog(w, e);
      }
    }
  }

  lemma ResolveKeepsSettled(w: World, c: ConnId, account: Account, cuts: seq<Entry>)
    requires Good(w) && Enabled(w, Resolve(c, Some(account))) && Accounted(w, cuts)
    ensures DrainedIsSettled(Effect(w, Resolve(c, Some(account))), cuts + Cut(w.relay, c, account))
  {
    var w' := Effect(w, Resolve(c, Some(account)));
    ResolveHands(w, c, account);
    forall id, e | e in DrainedFor(w'.relay.history, id)
      ensures InLog(w', e) || e in cuts + Cut(w.relay, c, account)
    {
      if e in DrainedFor(w.relay.history, id) {
        QueuedEntries(w.relay, id, e);
      } else {
        assert e in OfflineQueues.QueueOf(w.relay.offline, account.username);
        QueuedEntries(w.relay, account.username, e);
        HandedOrCut(w.relay, c, account, e);
      }
    }
  }

  lemma ResolveKeepsExplained(w: World, c: ConnId, account: Account)
    requires Good(w) && Enabled(w, Resolve(c, Some(account))) && LogsExplained(w)
    ensures LogsExplained(Effect(w, Resolve(c, Some(account))))
  {
    var w' := Effect(w, Resolve(c, Some(account)));
    ResolveHands(w, c, account);
    forall d, e | e in LogOf(w', d) ensures Explained(e, w'.relay.history) {
      if e.Routed? {
        assert InLog(w', e);
        ResolveDrains(w, c, account, e);
        if InLog(w, e) {
          var a :| e in LogOf(w, a);
          assert Explained(e, w.relay.history);
        } else {
          HandedOrCut(w.relay, c, account, e);
          QueuedEntries(w.relay, account.username, e);
        }
      }
    }
  }

  // ---------------------------------------------------------------- runs

  lemma StepKeepsAccounted(w: World, e: Event, cuts: seq<Entry>)
    requires Good(w) && Accounted(w, cuts)
    ensures Accounted(Apply(w, e), cuts + CutBy(w, e))
  {
    if Enabled(w, e) && e.Resolve? && e.resolved.Some? {
      ResolveKeepsCutsLost(w, e.c, e.resolved.value, cuts);
      ResolveKeepsSettled(w, e.c, e.resolved.value, cuts);
      ResolveKeepsExplained(w, e.c, e.resolved.value);
    } else {
      assert cuts + CutBy(w, e) == cuts;
      if HandsOverNothing(e) {
        QuietKeepsCutsLost(w, e, cuts);
        QuietKeepsSettled(w, e, cuts);
        QuietKeepsExplained(w, e);
      }
    }
  }

  lemma {:induction false} RunsAccount(limits: Limits, events: seq<Event>)
    requires limits.Positive()
    ensures Accounted(Exec(Start(limits), events), Cuts(limits, events))
  {
    if events == [] {
      var w := Start(limits);
      assert forall c :: LogOf(w, c) == [];
      assert forall id :: DrainedFor(w.relay.history, id) == [];
    } else {
      var n := |events| - 1;
      RunsAccount(limits, events[..n]);
      Always(limits, events[..n]);
      StepKeepsAccounted(Exec(Start(limits), events[..n]), events[n], Cuts(limits, events[..n]));
    }
  }

  lemma AccountedFor(w: World, cuts: seq<Entry>, i: nat)
    requires Good(w) && Accounted(w, cuts)
    requires i < |w.relay.history.accepted| && w.relay.history.accepted[i].status.Queued?
    ensures var receipt := w.relay.history.accepted[i].receipt;
            var e := Routed(receipt, i);
            var queued := e in OfflineQueues.QueueOf(w.relay.offline, receipt.recipient);
            && (queued || InLog(w, e) || e in cuts)
            && !(queued && InLog(w, e)) && !(queued && e in cuts) && !(InLog(w, e) && e in cuts)
  {
    var r := w.relay;
    var receipt := r.history.accepted[i].receipt;
    var e := Routed(receipt, i);
    QueuedForHasAll(r.history.accepted, i);
    assert e in DrainedFor(r.history, receipt.recipient) + OfflineQueues.QueueOf(r.offline, receipt.recipient);
    if e in OfflineQueues.QueueOf(r.offline, receipt.recipient) {
      QueuedIsNotDrained(r, receipt.recipient, e);
      QueuedIsInNoLog(w, e);
    } else {
      assert e in DrainedFor(r.history, receipt.recipient);
    }
  }

  /** Every message answered `queued` is still queued, or was put under its position into some queue,
      or was cut off when a connection was bound: exactly one of the three. */
  lemma QueuedIsAccountedFor(limits: Limits, events: seq<Event>, i: nat)
    requires limits.Positive()
    requires var accepted := Exec(Start(limits), events).relay.history.accepted;
             i < |accepted| && accepted[i].status.Queued?
    ensures var w := Exec(Start(limits), events);
            var receipt := w.relay.history.accepted[i].receipt;
            var e := Routed(receipt, i);
            var queued := e in OfflineQueues.QueueOf(w.relay.offline, receipt.recipient);
            var cut := e in Cuts(limits, events);
            && (queued || InLog(w, e) || cut)
            && !(queued && InLog(w, e)) && !(queued && cut) && !(InLog(w, e) && cut)
  {
    RunsAccount(limits, events);
    Always(limits, events);
    AccountedFor(Exec(Start(limits), events), Cuts(limits, events), i);
  }

  // ---------------------------------------------------------------- losses

  /** A message answered `queued` that is neither queued any more nor was put into any queue. */
  ghost predicate Lost(w: World, i: nat) {
    && i < |w.relay.history.accepted|
    && var a := w.relay.history.accepted[i];
       && a.status.Queued?
       && Routed(a.receipt, i) !in OfflineQueues.QueueOf(w.relay.offline, a.receipt.recipient)
       && !InLog(w, Routed(a.receipt, i))
  }

  ghost predicate SomeLost(w: World) {
    exists i :: Lost(w, i)
  }

  lemma CutMeansLost(w: World, cuts: seq<Entry>)
    requires Good(w) && Accounted(w, cuts)
    ensures cuts != [] <==> SomeLost(w)
  {
    forall i | Lost(w, i) ensures cuts != [] {
      AccountedFor(w, cuts, i);
    }
    if cuts != [] {
      var e := cuts[0];
      assert e in cuts && Drained(w.relay.history, e);
      var id :| e in DrainedFor(w.relay.history, id);
      QueuedEntries(w.relay, id, e);
      DrainedIsNotQueued(w.relay, id, e);
      assert Lost(w, e.stamp);
    }
  }

  /** The event binds a connection to an account with a backlog, and the connection has not room for it. */
  predicate CutsShort(w: World, e: Event) {
    && Enabled(w, e) && e.Resolve? && e.resolved.Some?
    && var n := |OfflineQueues.QueueOf(w.relay.offline, e.resolved.value.username)|;
       n > 0 && |w.relay.conns[e.c].pending| + 1 + n > w.relay.limits.maxPendingOutbound
  }

  lemma CutShortExactly(w: World, e: Event)
    requires Good(w)
    ensures CutBy(w, e) != [] <==> CutsShort(w, e)
  {
    if Enabled(w, e) && e.Resolve? {
      assert Tracked(w.tasks[e.c], w.relay.conns[e.c]);
    }
  }

  /** The k-th event of the run does. */
  predicate CutShortAt(limits: Limits, events: seq<Event>, k: nat) {
    k < |events| && CutsShort(Exec(Start(limits), events[..k]), events[k])
  }

  ghost predicate SomeCutShort(limits: Limits, events: seq<Event>) {
    exists k :: CutShortAt(limits, events, k)
  }

  lemma OneMoreMayCut(limits: Limits, events: seq<Event>)
    requires events != []
    ensures var most := events[..|events| - 1];
            SomeCutShort(limits, events) <==>
            SomeCutShort(limits, most) || CutsShort(Exec(Start(limits), most), events[|events| - 1])
  {
    var n := |events| - 1;
    var most := events[..n];
    assert CutShortAt(limits, events, n) <==> CutsShort(Exec(Start(limits), most), events[n]);
    forall k: nat | k < n ensures CutShortAt(limits, events, k) <==> CutShortAt(limits, most, k) {
      assert most[..k] == events[..k];
    }
  }

  lemma {:induction false} CutInRun(limits: Limits, events: seq<Event>)
    requires limits.Positive()
    ensures Cuts(limits, events) != [] <==> SomeCutShort(limits, events)
  {
    if events == [] {
    } else {
      var most := events[..|events| - 1];
      CutInRun(limits, most);
      Always(limits, most);
      CutShortExactly(Exec(Start(limits), most), events[|events| - 1]);
      OneMoreMayCut(limits, events);
    }
  }

  /** A run has lost a queued message exactly if one of its events bound a connection that had not room
      for the backlog. */
  lemma LossExactly(limits: Limits, events: seq<Event>)
    requires limits.Positive()
    ensures SomeLost(Exec(Start(limits), events)) <==> SomeCutShort(limits, events)
  {
    CutInRun(limits, events);
    RunsAccount(limits, events);
    Always(limits, events);
    CutMeansLost(Exec(Start(limits), events), Cuts(limits, events));
  }
}
