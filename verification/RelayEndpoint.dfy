/** The endpoint's code between awaits (server/app/websocket/endpoint.py), on the mutable objects. */
module RelayEndpoint {
  import opened Prelude
  import opened RelayObjects
  import OfflineQueues
  import RelayModel
  import RelaySystem

  /** The branch for a recipient with live connections. */
  method RouteLive(manager: ConnectionManager, origin: ConnId, receipt: RelayModel.Receipt)
    returns (status: RelayModel.DeliveryStatus)
    requires manager.Valid() && RelayModel.IsConnected(manager.View(), receipt.recipient)
    modifies manager`contexts, manager`history, manager.connections.Values
    ensures manager.Valid() && status == RelayModel.StatusFor(old(manager.View()), receipt.recipient)
    ensures manager.View() == RelayModel.RouteMessage(old(manager.View()), origin, receipt)
  {
    ghost var e := RelayModel.Routed(receipt, |manager.history.accepted|);
    var delivered := manager.DeliverToClient(receipt.recipient, receipt, e);
    status := if delivered then RelayModel.Delivered else RelayModel.RecipientUnavailable;
    manager.RecordAnswer(receipt, origin, status);
  }

  /** The branch for a recipient without any. */
  method RouteOffline(manager: ConnectionManager, origin: ConnId, receipt: RelayModel.Receipt)
    returns (status: RelayModel.DeliveryStatus)
    requires manager.Valid() && !RelayModel.IsConnected(manager.View(), receipt.recipient)
    modifies manager`backlog, manager`history, manager.offlineQueue
    ensures manager.Valid() && status == RelayModel.StatusFor(old(manager.View()), receipt.recipient)
    ensures manager.View() == RelayModel.RouteMessage(old(manager.View()), origin, receipt)
  {
    ghost var e := RelayModel.Routed(receipt, |manager.history.accepted|);
    var queued := manager.QueueOffline(receipt.recipient, receipt, e);
    status := if queued then RelayModel.Queued else RelayModel.RecipientUnavailable;
    manager.RecordAnswer(receipt, origin, status);
  }

  method RouteMessage(
      manager: ConnectionManager, context: ConnectionContext, env: RelayModel.Envelope, recipient: Identity)
    returns (status: RelayModel.DeliveryStatus)
    requires manager.Valid() && manager.Holds(context)
    modifies manager`contexts, manager`backlog, manager`history, manager.offlineQueue, manager.connections.Values
    ensures manager.Valid()
    ensures status == RelayModel.StatusFor(old(manager.View()), recipient)
    ensures manager.View() == RelayModel.RouteMessage(
              old(manager.View()), context.connectionId,
              RelayModel.ReceiptFor(old(manager.contexts)[context.connectionId].Identity(), recipient, env))
  {
    assert context.Is(context.connectionId, manager.limits, manager.contexts[context.connectionId]);
    var receipt := RelayModel.ReceiptFor(context.RoutingIdentity(), recipient, env);
    var connected := manager.IsConnected(recipient);
    if connected {
      status := RouteLive(manager, context.connectionId, receipt);
    } else {
      status := RouteOffline(manager, context.connectionId, receipt);
    }
  }

  method HandleMessageSend(manager: ConnectionManager, context: ConnectionContext, env: RelayModel.Envelope)
    returns (responses: seq<Message>)
    requires manager.Valid() && manager.Holds(context)
    modifies manager`contexts, manager`backlog, manager`history, manager.offlineQueue, manager.connections.Values
    ensures manager.Valid()
    ensures manager.View() == RelayModel.AfterSend(old(manager.View()), context.connectionId, env)
    ensures responses == RelayModel.SendReplies(old(manager.View()), context.connectionId, env)
  {
    assert context.Is(context.connectionId, manager.limits, manager.contexts[context.connectionId]);
    if env.sender != context.RoutingIdentity() {
      return [RelayModel.ProtocolError(RelayModel.SenderMismatch, Some(env.messageId)),
              RelayModel.DeliveryAck(env.messageId, RelayModel.Rejected)];
    }
    if env.recipient.None? {
      return [RelayModel.ProtocolError(RelayModel.InvalidRecipient, Some(env.messageId))];
    }
    var status := RouteMessage(manager, context, env, env.recipient.value);
    return [RelayModel.DeliveryAck(env.messageId, status)];
  }

  /** The contexts after `c` has been sent the first `n` of `es`, all taken. */
  ghost function Sent(contexts: map<ConnId, RelayModel.Context>, c: ConnId, es: seq<Entry>, n: nat, capacity: nat)
    : map<ConnId, RelayModel.Context>
    requires c in contexts && n <= |es|
  {
    contexts[c := contexts[c].PutAll(es[..n], capacity)]
  }

  ghost predicate AllTaken(contexts: map<ConnId, RelayModel.Context>, c: ConnId, n: nat, capacity: nat)
    requires c in contexts
  {
    contexts[c].Fitting(n, capacity) == n
  }

  lemma NothingSent(contexts: map<ConnId, RelayModel.Context>, c: ConnId, es: seq<Entry>, capacity: nat)
    requires c in contexts
    ensures Sent(contexts, c, es, 0, capacity) == contexts && AllTaken(contexts, c, 0, capacity)
  {
    assert contexts[c].PutAll(es[..0], capacity) == contexts[c];
  }

  lemma NextPut(ctx: RelayModel.Context, es: seq<Entry>, i: nat, capacity: nat)
    requires i < |es| && ctx.Fitting(i, capacity) == i
    ensures var put := ctx.PutAll(es[..i], capacity);
            if put.Takes(capacity)
            then ctx.Fitting(i + 1, capacity) == i + 1 && put.Put(es[i], capacity) == ctx.PutAll(es[..i + 1], capacity)
            else ctx.Fitting(|es|, capacity) == i && put.Put(es[i], capacity) == put && put == ctx.PutAll(es, capacity)
  {
    var put := ctx.PutAll(es[..i], capacity);
    assert es[..i][..i] == es[..i] && es[..i + 1] == es[..i] + [es[i]];
    if put.Takes(capacity) {
      assert [es[i]][..put.Fitting(1, capacity)] == [es[i]];
      assert es[..i + 1][..i + 1] == es[..i + 1];
    } else {
      assert [es[i]][..put.Fitting(1, capacity)] == [];
    }
  }

  /** The next reply extends the fitting prefix, or ends it. */
  lemma NextSent(contexts: map<ConnId, RelayModel.Context>, c: ConnId, es: seq<Entry>, i: nat, capacity: nat)
    requires c in contexts && i < |es| && AllTaken(contexts, c, i, capacity)
    ensures var sent := Sent(contexts, c, es, i, capacity);
            if sent[c].Takes(capacity)
            then AllTaken(contexts, c, i + 1, capacity)
                 && sent[c := sent[c].Put(es[i], capacity)] == Sent(contexts, c, es, i + 1, capacity)
            else contexts[c].Fitting(|es|, capacity) == i
                 && sent[c := sent[c].Put(es[i], capacity)] == contexts[c := contexts[c].PutAll(es, capacity)]
  {
    var ctx := contexts[c];
    NextPut(ctx, es, i, capacity);
    var next := Sent(contexts, c, es, i, capacity)[c].Put(es[i], capacity);
    assert Sent(contexts, c, es, i, capacity)[c := next] == contexts[c := next];
  }

  /** The reply loop: put one after another, stop at the first refusal. */
  method EnqueueResponses(
      manager: ConnectionManager, context: ConnectionContext, responses: seq<Message>, ghost es: seq<Entry>)
    returns (next: RelayModel.Next)
    requires manager.Valid() && manager.Holds(context) && responses == RelayModel.Messages(es)
    modifies manager`contexts, context
    ensures manager.Valid()
    ensures RelayModel.Outcome(manager.View(), next)
            == RelayModel.Respond(old(manager.View()), context.connectionId, es)
  {
    var c := context.connectionId;
    ghost var capacity := manager.limits.maxPendingOutbound;
    var i := 0;
    NothingSent(manager.contexts, c, es, capacity);
    while i < |responses|
      invariant 0 <= i <= |responses| && manager.Valid() && manager.Holds(context)
      invariant AllTaken(old(manager.contexts), c, i, capacity)
      invariant manager.contexts == Sent(old(manager.contexts), c, es, i, capacity)
    {
      NextSent(old(manager.contexts), c, es, i, capacity);
      var ok := manager.Offer(c, responses[i], es[i]);
      if !ok {
        return RelayModel.Stop(RelayModel.PolicyViolation);
      }
      i := i + 1;
    }
    assert es[..i] == es;
    return RelayModel.Continue;
  }

  /** An error put outside the reply loop. */
  method Notify(manager: ConnectionManager, context: ConnectionContext, code: RelayModel.ErrorCode)
    requires manager.Valid() && manager.Holds(context)
    modifies manager`contexts, context
    ensures manager.Valid()
    ensures manager.View() == RelayModel.Notify(old(manager.View()), context.connectionId, code)
  {
    var message := RelayModel.ProtocolError(code, None);
    var _ := manager.Offer(context.connectionId, message, RelayModel.Own(message));
  }

  /** A single reply. */
  method Reply(manager: ConnectionManager, context: ConnectionContext, message: Message) returns (next: RelayModel.Next)
    requires manager.Valid() && manager.Holds(context)
    modifies manager`contexts, context
    ensures manager.Valid()
    ensures RelayModel.Outcome(manager.View(), next)
            == RelayModel.Respond(old(manager.View()), context.connectionId, [RelayModel.Own(message)])
  {
    assert RelayModel.Messages([RelayModel.Own(message)]) == [message];
    next := EnqueueResponses(manager, context, [message], [RelayModel.Own(message)]);
  }

  /** Dispatch of a valid envelope. */
  method Dispatch(manager: ConnectionManager, context: ConnectionContext, env: RelayModel.Envelope)
    returns (next: RelayModel.Next)
    requires manager.Valid() && manager.Holds(context)
    modifies manager`contexts, manager`backlog, manager`history, manager.offlineQueue, manager.connections.Values
    ensures manager.Valid()
    ensures RelayModel.Outcome(manager.View(), next)
            == RelayModel.Dispatch(old(manager.View()), context.connectionId, env)
  {
    assert context.Is(context.connectionId, manager.limits, manager.contexts[context.connectionId]);
    assert context in manager.connections.Values;
    match env.kind {
      case AuthAuthenticate =>
        if context.authenticated {
          next := Reply(manager, context,
                RelayModel.ProtocolError(RelayModel.AlreadyAuthenticated, Some(env.messageId)));
        } else if env.accessToken.Unacceptable? {
          next := Reply(manager, context, RelayModel.ProtocolError(RelayModel.AuthFailed, Some(env.messageId)));
        } else {
          next := RelayModel.AwaitToken(env.messageId, env.accessToken.token);
        }
      case HeartbeatPing => next := Reply(manager, context, RelayModel.HeartbeatPong(env.messageId));
      case QueueStatusRequest =>
        var count := manager.CountOffline(context.RoutingIdentity());
        next := Reply(manager, context, RelayModel.QueueStatus(env.messageId, count));
      case MessageSend =>
        var responses := HandleMessageSend(manager, context, env);
        next := EnqueueResponses(manager, context, responses, RelayModel.Owned(responses));
    }
  }

  /** A frame that is neither too large nor over the rate: validate, then reply or dispatch. */
  method Process(manager: ConnectionManager, context: ConnectionContext, body: RelayModel.Body)
    returns (next: RelayModel.Next)
    requires manager.Valid() && manager.Holds(context)
    modifies manager`contexts, manager`backlog, manager`history, manager.offlineQueue, manager.connections.Values
    ensures manager.Valid()
    ensures RelayModel.Outcome(manager.View(), next)
            == RelayModel.Process(old(manager.View()), context.connectionId, body)
  {
    assert context in manager.connections.Values;
    assert context.Is(context.connectionId, manager.limits, manager.contexts[context.connectionId]);
    match RelayModel.ValidateInbound(context.authenticated, body) {
      case Refused(error) => next := Reply(manager, context, error);
      case Valid(env) => next := Dispatch(manager, context, env);
    }
  }

  /** One iteration of the receive loop, from the arrival of a text to the next await. */
  method HandleFrame(manager: ConnectionManager, context: ConnectionContext, frame: RelayModel.Frame, now: Instant)
    returns (next: RelayModel.Next)
    requires manager.Valid() && manager.Holds(context)
    modifies manager`contexts, manager`backlog, manager`history, manager.offlineQueue
    modifies manager.connections.Values, context.rateLimiter
    ensures manager.Valid()
    ensures RelayModel.Outcome(manager.View(), next)
            == RelayModel.HandleFrame(old(manager.View()), context.connectionId, frame, now)
  {
    assert context in manager.connections.Values;
    if frame.bytes > manager.limits.maxMessageBytes {
      Notify(manager, context, RelayModel.MessageTooLarge);
      return RelayModel.Continue;
    }
    var allowed := manager.CountFrame(context, now);
    if !allowed {
      Notify(manager, context, RelayModel.RateLimited);
      return RelayModel.Continue;
    }
    next := Process(manager, context, frame.body);
  }

  lemma OneMessageMore(e: Entry, es: seq<Entry>)
    ensures RelayModel.Messages([e] + es) == [e.message] + RelayModel.Messages(es)
  {
  }

  /** The account is bound and its backlog taken out of the offline queue. */
  method BindAndDrain(manager: ConnectionManager, context: ConnectionContext, account: Account)
    returns (drained: seq<RelayModel.Message>)
    requires manager.Valid() && manager.Holds(context)
    modifies manager`byClient, manager`contexts, manager`backlog, manager`history, manager.offlineQueue, context
    ensures manager.Valid() && manager.Holds(context)
    ensures manager.View() == RelayModel.Drain(
              RelayModel.BindIdentity(old(manager.View()), context.connectionId, account), account.username)
    ensures drained == RelayModel.Messages(OfflineQueues.QueueOf(old(manager.backlog), account.username))
  {
    manager.BindIdentity(context, account.userId, account.username, account.sessionId);
    drained := manager.DrainOffline(account.username);
  }

  /** Authentication from the resolution of the token on: bind, drain and reply in one segment. */
  method FinishAuthentication(
    manager: ConnectionManager, context: ConnectionContext, messageId: string, resolved: Option<Account>)
    returns (next: RelayModel.Next)
    requires manager.Valid() && manager.Holds(context)
    modifies manager`byClient, manager`contexts, manager`backlog, manager`history, manager.offlineQueue, context
    ensures manager.Valid()
    ensures RelayModel.Outcome(manager.View(), next)
            == RelayModel.FinishAuthentication(old(manager.View()), context.connectionId, messageId, resolved)
  {
    if resolved.None? {
      next := Reply(manager, context, RelayModel.ProtocolError(RelayModel.AuthFailed, Some(messageId)));
      return;
    }
    var account := resolved.value;
    var ready := RelayModel.AuthReady(messageId, account);
    ghost var backlog := OfflineQueues.QueueOf(manager.backlog, account.username);
    OneMessageMore(RelayModel.Own(ready), backlog);
    var drained := BindAndDrain(manager, context, account);
    next := EnqueueResponses(manager, context, [ready] + drained, [RelayModel.Own(ready)] + backlog);
  }

  lemma TwoCredits(contexts: map<ConnId, RelayModel.Context>, c: ConnId)
    requires c in contexts
    ensures var once := contexts[c := RelaySystem.Credited(contexts[c], 1)];
            once[c := RelaySystem.Credited(once[c], 1)] == contexts[c := RelaySystem.Credited(contexts[c], 2)]
  {
  }

  /** What the writer does once its send has ended. */
  method SettleSend(manager: ConnectionManager, context: ConnectionContext, result: RelaySystem.SendResult)
    requires manager.Valid() && manager.Holds(context)
    modifies manager`contexts, context
    ensures manager.Valid()
    ensures manager.contexts == old(manager.contexts)[context.connectionId :=
              RelaySystem.Credited(old(manager.contexts)[context.connectionId], RelaySystem.TaskDones(result))]
  {
    TwoCredits(manager.contexts, context.connectionId);
    manager.TaskDone(context);
    if result.Raised? {
      manager.TaskDone(context);
    }
  }
}
