/** The relay's memory bounds hold in every reachable state. */
module RelayBounds {
  import opened Prelude
  import opened RelayModel
  import opened RelayInvariants
  import opened RelayRouting
  import OfflineQueues
  import RateLimiting

  /** Whatever happens between: the same connections, none above its bound. */
  predicate StaysWithin(r: Relay, r': Relay) {
    && r'.limits == r.limits && r'.conns.Keys == r.conns.Keys
    && (forall c | c in r.conns :: |r'.conns[c].pending| <= r.limits.maxPendingOutbound)
    && OfflineBounded(r')
  }

  lemma StaysWithinIsBounded(r: Relay, r': Relay)
    requires Bounded(r) && StaysWithin(r, r')
    ensures Bounded(r')
  {
    assert |r'.conns.Keys| == |r.conns.Keys|;
  }

  lemma SetStaysWithin(r: Relay, c: ConnId, ctx: Context)
    requires Bounded(r) && c in r.conns && |ctx.pending| <= r.limits.maxPendingOutbound
    ensures Bounded(SetContext(r, c, ctx))
  {
    assert StaysWithin(r, SetContext(r, c, ctx));
    StaysWithinIsBounded(r, SetContext(r, c, ctx));
  }

  lemma PutAllStaysWithin(ctx: Context, es: seq<Entry>, capacity: nat)
    requires capacity > 0 && |ctx.pending| <= capacity
    ensures |ctx.PutAll(es, capacity).pending| <= capacity
  {
  }

  lemma RespondKeepsBounded(r: Relay, c: ConnId, es: seq<Entry>)
    requires Bounded(r) && r.limits.Positive() && c in r.conns
    ensures Bounded(Respond(r, c, es).relay)
  {
    PutAllStaysWithin(r.conns[c], es, r.limits.maxPendingOutbound);
    SetStaysWithin(r, c, r.conns[c].PutAll(es, r.limits.maxPendingOutbound));
  }

  lemma OfferKeepsBounded(q: OfflineQueues.Queues<Entry>, id: Identity, e: Entry, limits: Limits)
    requires limits.Positive() && QueuesBounded(q, limits)
    ensures QueuesBounded(OfflineQueues.Enqueued(q, id, e, limits.maxQueuedPerRecipient, limits.maxQueuedRecipients),
            limits)
  {
    var q' := OfflineQueues.Enqueued(q, id, e, limits.maxQueuedPerRecipient, limits.maxQueuedRecipients);
    if OfflineQueues.Accepts(q, id, limits.maxQueuedPerRecipient, limits.maxQueuedRecipients) {
      assert q'.Keys == q.Keys + {id};
      assert id in q ==> q'.Keys == q.Keys;
    }
  }

  lemma RouteKeepsBounded(r: Relay, c: ConnId, receipt: Receipt)
    requires Bounded(r) && r.limits.Positive()
    ensures Bounded(RouteMessage(r, c, receipt))
  {
    var r' := RouteMessage(r, c, receipt);
    var e := Routed(receipt, |r.history.accepted|);
    OfferKeepsBounded(r.offline, receipt.recipient, e, r.limits);
    forall d | d in r.conns ensures |r'.conns[d].pending| <= r.limits.maxPendingOutbound {
      PutAllStaysWithin(r.conns[d], [e], r.limits.maxPendingOutbound);
    }
    assert StaysWithin(r, r');
    StaysWithinIsBounded(r, r');
  }

  lemma DispatchKeepsBounded(r: Relay, c: ConnId, env: Envelope)
    requires Bounded(r) && r.limits.Positive() && c in r.conns
    ensures Bounded(Dispatch(r, c, env).relay)
  {
    match env.kind {
      case AuthAuthenticate =>
        RespondKeepsBounded(r, c, [Own(ProtocolError(AlreadyAuthenticated, Some(env.messageId)))]);
        RespondKeepsBounded(r, c, [Own(ProtocolError(AuthFailed, Some(env.messageId)))]);
      case HeartbeatPing => RespondKeepsBounded(r, c, [Own(HeartbeatPong(env.messageId))]);
      case QueueStatusRequest =>
        RespondKeepsBounded(r, c,
              [Own(QueueStatus(env.messageId, |OfflineQueues.QueueOf(r.offline, r.conns[c].Identity())|))]);
      case MessageSend =>
        if MaySend(r.conns[c], env) {
          RouteKeepsBounded(r, c, ReceiptFor(r.conns[c].Identity(), env.recipient.value, env));
        }
        RespondKeepsBounded(AfterSend(r, c, env), c, Owned(SendReplies(r, c, env)));
    }
  }

  lemma HandleFrameKeepsBounded(r: Relay, c: ConnId, frame: Frame, now: Instant)
    requires Bounded(r) && r.limits.Positive() && c in r.conns
    ensures Bounded(HandleFrame(r, c, frame, now).relay)
  {
    var ctx := r.conns[c];
    if frame.bytes > r.limits.maxMessageBytes {
      RespondKeepsBounded(r, c, [Own(ProtocolError(MessageTooLarge, None))]);
    } else {
      var window := RateLimiting.Tick(ctx.limiter, r.limits.windowSeconds, now);
      var counted := SetContext(r, c, ctx.(limiter := window));
      SetStaysWithin(r, c, ctx.(limiter := window));
      if window.count > r.limits.maxMessagesPerWindow {
        RespondKeepsBounded(counted, c, [Own(ProtocolError(RateLimited, None))]);
      } else {
        match ValidateInbound(ctx.account.Some?, frame.body) {
          case Refused(error) => RespondKeepsBounded(counted, c, [Own(error)]);
          case Valid(env) => DispatchKeepsBounded(counted, c, env);
        }
      }
    }
  }

  lemma DrainKeepsBounded(q: OfflineQueues.Queues<Entry>, id: Identity, limits: Limits)
    requires QueuesBounded(q, limits)
    ensures QueuesBounded(q - {id}, limits)
  {
    assert (q - {id}).Keys == q.Keys - {id};
    assert |q.Keys - {id}| <= |q.Keys|;
  }

  lemma BoundKeepsBounded(r: Relay, c: ConnId, account: Account)
    requires Bounded(r) && c in r.conns
    ensures Bounded(Bound(r, c, account))
  {
    BoundFrame(r, c, account);
    DrainKeepsBounded(r.offline, account.username, r.limits);
    StaysWithinIsBounded(r, Bound(r, c, account));
  }

  lemma AuthenticationKeepsBounded(r: Relay, c: ConnId, messageId: string, resolved: Option<Account>)
    requires Bounded(r) && r.limits.Positive() && c in r.conns
    ensures Bounded(FinishAuthentication(r, c, messageId, resolved).relay)
  {
    match resolved {
      case None => RespondKeepsBounded(r, c, [Own(ProtocolError(AuthFailed, Some(messageId)))]);
      case Some(account) =>
        BoundKeepsBounded(r, c, account);
        RespondKeepsBounded(Bound(r, c, account), c,
                            [Own(AuthReady(messageId, account))] + OfflineQueues.QueueOf(r.offline, account.username));
    }
  }

  lemma RegisterKeepsBounded(r: Relay, c: ConnId, provisional: Identity)
    requires Bounded(r) && MayRegister(r, provisional)
    ensures Bounded(Register(r, c, provisional))
  {
    assert Register(r, c, provisional).conns.Keys == r.conns.Keys + {c};
  }

  lemma UnregisterKeepsBounded(r: Relay, c: ConnId)
    requires Bounded(r)
    ensures Bounded(Unregister(r, c))
  {
    if c in r.conns {
      assert Unregister(r, c).conns.Keys == r.conns.Keys - {c};
      assert |r.conns.Keys - {c}| <= |r.conns.Keys|;
    }
  }
}
