/** What the relay puts into its queues: routed receipts as such, and queue.status replies of zero. */
module RelayReplies {
  import opened Prelude
  import opened RelayModel
  import opened RelaySystem
  import opened RelayInvariants
  import opened RelayRuns
  import RelayTasks
  import OfflineQueues
  import RateLimiting

  /** A message receipt has its place in the history and nothing else has; a queue.status reply
      reports zero. */
  predicate Proper(e: Entry) {
    && (e.message.MessageReceipt? <==> e.Routed?)
    && (e.message.QueueStatus? ==> e.message.queuedMessageCount == 0)
  }

  predicate AllProper(es: seq<Entry>) {
    forall i | 0 <= i < |es| :: Proper(es[i])
  }

  predicate LogsProper(r: Relay) {
    forall c | c in r.conns :: AllProper(r.conns[c].log)
  }

  lemma PutAllKeepsProper(ctx: Context, es: seq<Entry>, capacity: nat)
    requires AllProper(ctx.log) && AllProper(es)
    ensures AllProper(ctx.PutAll(es, capacity).log)
  {
  }

  lemma RespondKeepsProper(r: Relay, c: ConnId, es: seq<Entry>)
    requires LogsProper(r) && c in r.conns && AllProper(es)
    ensures LogsProper(Respond(r, c, es).relay)
  {
    PutAllKeepsProper(r.conns[c], es, r.limits.maxPendingOutbound);
  }

  lemma RoutingKeepsProper(r: Relay, c: ConnId, receipt: Receipt)
    requires LogsProper(r)
    ensures LogsProper(RouteMessage(r, c, receipt))
  {
    var e := Routed(receipt, |r.history.accepted|);
    var r' := RouteMessage(r, c, receipt);
    assert AllProper([e]);
    forall d | d in r'.conns ensures AllProper(r'.conns[d].log) {
      PutAllKeepsProper(r.conns[d], [e], r.limits.maxPendingOutbound);
    }
  }

  lemma DispatchKeepsProper(r: Relay, c: ConnId, env: Envelope)
    requires LogsProper(r) && NoStaleBacklog(r) && c in r.conns && (r.conns[c].account.Some? || OpenToAll(env.kind))
    ensures LogsProper(Dispatch(r, c, env).relay)
  {
    match env.kind {
      case AuthAuthenticate =>
        RespondKeepsProper(r, c, [Own(ProtocolError(AlreadyAuthenticated, Some(env.messageId)))]);
        RespondKeepsProper(r, c, [Own(ProtocolError(AuthFailed, Some(env.messageId)))]);
      case HeartbeatPing =>
        RespondKeepsProper(r, c, [Own(HeartbeatPong(env.messageId))]);
      case QueueStatusRequest =>
        RespondKeepsProper(r, c,
              [Own(QueueStatus(env.messageId, |OfflineQueues.QueueOf(r.offline, r.conns[c].Identity())|))]);
      case MessageSend =>
        if MaySend(r.conns[c], env) {
          RoutingKeepsProper(r, c, ReceiptFor(r.conns[c].Identity(), env.recipient.value, env));
        }
        RespondKeepsProper(AfterSend(r, c, env), c, Owned(SendReplies(r, c, env)));
    }
  }

  lemma FrameKeepsProper(r: Relay, c: ConnId, frame: Frame, now: Instant)
    requires LogsProper(r) && NoStaleBacklog(r) && c in r.conns
    ensures LogsProper(HandleFrame(r, c, frame, now).relay)
  {
    var ctx := r.conns[c];
    RespondKeepsProper(r, c, [Own(ProtocolError(MessageTooLarge, None))]);
    var counted := SetContext(r, c, ctx.(limiter := RateLimiting.Tick(ctx.limiter, r.limits.windowSeconds, now)));
    assert LogsProper(counted) && NoStaleBacklog(counted);
    RespondKeepsProper(counted, c, [Own(ProtocolError(RateLimited, None))]);
    match ValidateInbound(ctx.account.Some?, frame.body) {
      case Refused(error) => RespondKeepsProper(counted, c, [Own(error)]);
      case Valid(env) => DispatchKeepsProper(counted, c, env);
    }
  }

  lemma BacklogIsProper(r: Relay, id: Identity)
    requires Conserved(r)
    ensures AllProper(OfflineQueues.QueueOf(r.offline, id))
  {
    var all, drained, queue := QueuedFor(r.history.accepted, id),
                               DrainedFor(r.history, id), OfflineQueues.QueueOf(r.offline, id);
    assert all == drained + queue;
    QueuedForInOrder(r.history.accepted, id);
    forall i | 0 <= i < |queue| ensures Proper(queue[i]) {
      assert queue[i] == all[|drained| + i] && all[|drained| + i] in all;
      assert WasQueued(queue[i], r.history.accepted) && Matches(all[|drained| + i], id, r.history.accepted);
    }
  }

  lemma AuthenticationKeepsProper(r: Relay, c: ConnId, messageId: string, resolved: Option<Account>)
    requires LogsProper(r) && Conserved(r) && c in r.conns
    ensures LogsProper(FinishAuthentication(r, c, messageId, resolved).relay)
  {
    match resolved {
      case None => RespondKeepsProper(r, c, [Own(ProtocolError(AuthFailed, Some(messageId)))]);
      case Some(account) =>
        BacklogIsProper(r, account.username);
        RespondKeepsProper(Drain(BindIdentity(r, c, account), account.username), c,
                         [Own(AuthReady(messageId, account))] + OfflineQueues.QueueOf(r.offline, account.username));
    }
  }

  lemma ProceedKeepsProper(w: World, c: ConnId, o: Outcome)
    requires c in w.tasks && c in o.relay.conns && LogsProper(o.relay)
    ensures LogsProper(Proceed(w, c, o).relay)
  {
  }

  lemma ReceiveKeepsProper(w: World, c: ConnId, frame: Frame, now: Instant)
    requires LogsProper(w.relay) && NoStaleBacklog(w.relay) && Enabled(w, Receive(c, frame, now))
    ensures LogsProper(Effect(w, Receive(c, frame, now)).relay)
  {
    var o := HandleFrame(w.relay, c, frame, now);
    FrameKeepsProper(w.relay, c, frame, now);
    RelayTasks.HandleFrameGrows(w.relay, c, frame, now);
    ProceedKeepsProper(w, c, o);
  }

  lemma ResolveKeepsProper(w: World, c: ConnId, resolved: Option<Account>)
    requires LogsProper(w.relay) && Conserved(w.relay) && Enabled(w, Resolve(c, resolved))
    ensures LogsProper(Effect(w, Resolve(c, resolved)).relay)
  {
    AuthenticationKeepsProper(w.relay, c, w.tasks[c].phase.messageId, resolved);
    ProceedKeepsProper(w, c, FinishAuthentication(w.relay, c, w.tasks[c].phase.messageId, resolved));
  }

  lemma DeadlineKeepsProper(w: World, c: ConnId)
    requires LogsProper(w.relay) && Enabled(w, Deadline(c))
    ensures LogsProper(Effect(w, Deadline(c)).relay)
  {
    var code := if w.relay.conns[c].account.Some? then IdleTimeout else AuthRequired;
    RespondKeepsProper(w.relay, c, [Own(ProtocolError(code, None))]);
    ProceedKeepsProper(w, c, DeadlinePassed(w.relay, c));
  }

  lemma AcceptKeepsProper(w: World, c: ConnId, ok: bool)
    requires LogsProper(w.relay) && Enabled(w, Accept(c, ok))
    ensures LogsProper(Effect(w, Accept(c, ok)).relay)
  {
    PutAllKeepsProper(w.relay.conns[c], [Own(ConnectionReady(c))], w.relay.limits.maxPendingOutbound);
  }

  lemma OthersKeepProper(w: World, e: Event)
    requires LogsProper(w.relay) && Enabled(w, e) && !e.Accept? && !e.Receive? && !e.Resolve? && !e.Deadline?
    ensures LogsProper(Effect(w, e).relay)
  {
  }

  lemma ApplyKeepsProper(w: World, e: Event)
    requires Good(w) && LogsProper(w.relay)
    ensures LogsProper(Apply(w, e).relay)
  {
    if Enabled(w, e) {
      if e.Accept? {
        AcceptKeepsProper(w, e.c, e.ok);
      } else if e.Receive? {
        ReceiveKeepsProper(w, e.c, e.frame, e.now);
      } else if e.Resolve? {
        ResolveKeepsProper(w, e.c, e.resolved);
      } else if e.Deadline? {
        DeadlineKeepsProper(w, e.c);
      } else {
        OthersKeepProper(w, e);
      }
    }
  }

  lemma {:induction false} RunsKeepProper(limits: Limits, events: seq<Event>)
    requires limits.Positive()
    ensures LogsProper(Exec(Start(limits), events).relay)
  {
    if events == [] {
    } else {
      var n := |events| - 1;
      RunsKeepProper(limits, events[..n]);
      Always(limits, events[..n]);
      ApplyKeepsProper(Exec(Start(limits), events[..n]), events[n]);
    }
  }

  /** In every reachable state the entries of all queues and logs are proper. */
  lemma ReachableIsProper(w: World)
    requires Reachable(w)
    ensures LogsProper(w.relay)
    ensures forall id | id in w.relay.offline :: AllProper(w.relay.offline[id])
  {
    var limits: Limits, events :| limits.Positive() && w == Exec(Start(limits), events);
    RunsKeepProper(limits, events);
    Always(limits, events);
    forall id | id in w.relay.offline ensures AllProper(w.relay.offline[id]) {
      BacklogIsProper(w.relay, id);
    }
  }

  /** Every queue.status reply ever put into any queue reports zero. */
  lemma StatusIsAlwaysZero(w: World, c: ConnId, i: nat)
    requires Reachable(w) && c in w.relay.conns && i < |w.relay.conns[c].log|
    requires w.relay.conns[c].log[i].message.QueueStatus?
    ensures w.relay.conns[c].log[i].message.queuedMessageCount == 0
  {
    ReachableIsProper(w);
    assert Proper(w.relay.conns[c].log[i]);
  }
}
