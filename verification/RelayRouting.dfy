/** Routing, registration and authentication keep every invariant of the relay. */
module RelayRouting {
  import opened Prelude
  import opened RelayModel
  import opened RelayInvariants
  import OfflineQueues

  // ---------------------------------------------------------------- one put

  lemma PutEffect(ctx: Context, e: Entry, capacity: nat)
    requires capacity > 0
    ensures ctx.Takes(capacity) ==>
              ctx.Put(e, capacity)
                    == ctx.(pending := ctx.pending + [e], unfinished := ctx.unfinished + 1, log := ctx.log + [e])
    ensures !ctx.Takes(capacity) ==> ctx.Put(e, capacity) == ctx
  {
    var taken := [e][..ctx.Fitting(1, capacity)];
    assert if ctx.Takes(capacity) then taken == [e] else taken == [];
  }

  /** A live message keeps a connection's log in order. */
  lemma LivePutKeepsLog(ctx: Context, a: Accepted, accepted: seq<Accepted>, capacity: nat)
    requires capacity > 0 && LogInOrder(ctx, accepted)
    requires a.status.Delivered? && a.receipt.recipient == ctx.Identity()
    ensures LogInOrder(ctx.Put(Routed(a.receipt, |accepted|), capacity), accepted + [a])
  {
    var e := Routed(a.receipt, |accepted|);
    PutEffect(ctx, e, capacity);
    var b := Boundary(ctx);
    InOrderMonotone(ctx.log[..b], ctx.provisional, accepted, a);
    if !ctx.Takes(capacity) {
      InOrderMonotone(ctx.log[b..], ctx.Identity(), accepted, a);
    } else if ctx.account.None? {
      var log := ctx.log + [e];
      assert ctx.log[..b] == ctx.log && log[..|log|] == log && log[|log|..] == [];
      InOrderAppendLive(ctx.log, ctx.provisional, accepted, a);
    } else {
      var log := ctx.log + [e];
      assert log[..b] == ctx.log[..b] && log[b..] == ctx.log[b..] + [e];
      InOrderAppendLive(ctx.log[b..], ctx.Identity(), accepted, a);
    }
  }

  lemma AcceptKeepsLog(ctx: Context, a: Accepted, accepted: seq<Accepted>)
    requires LogInOrder(ctx, accepted)
    ensures LogInOrder(ctx, accepted + [a])
  {
    InOrderMonotone(ctx.log[..Boundary(ctx)], ctx.provisional, accepted, a);
    InOrderMonotone(ctx.log[Boundary(ctx)..], ctx.Identity(), accepted, a);
  }

  lemma QueuedForSnoc(accepted: seq<Accepted>, a: Accepted, id: Identity)
    ensures QueuedFor(accepted + [a], id) ==
            QueuedFor(accepted, id)
            + if a.status.Queued? && a.receipt.recipient == id then [Routed(a.receipt, |accepted|)] else []
  {
    assert (accepted + [a])[..|accepted|] == accepted;
  }

  // ---------------------------------------------------------------- routing

  /** Under the limits the environment gives, a refused message changes nothing. */
  lemma RefusalChangesNothing(r: Relay, origin: ConnId, receipt: Receipt)
    requires r.limits.Positive()
    requires StatusFor(r, receipt.recipient).RecipientUnavailable?
    ensures RouteMessage(r, origin, receipt) == r
  {
    if IsConnected(r, receipt.recipient) {
      var e := Routed(receipt, |r.history.accepted|);
      var targets := ConnectionsFor(r, receipt.recipient);
      forall c | c in r.conns && c in targets
        ensures r.conns[c].Put(e, r.limits.maxPendingOutbound) == r.conns[c]
      {
        PutEffect(r.conns[c], e, r.limits.maxPendingOutbound);
      }
      assert PutEach(r.conns, targets, e, r.limits.maxPendingOutbound) == r.conns;
    }
  }

  /** A delivery changes the connections' queues and logs and records the message, nothing else. */
  lemma DeliveryFrame(r: Relay, origin: ConnId, receipt: Receipt)
    requires StatusFor(r, receipt.recipient).Delivered?
    ensures var r' := RouteMessage(r, origin, receipt);
            && r'.conns.Keys == r.conns.Keys && r'.byClient == r.byClient && r'.offline == r.offline
            && r'.limits == r.limits && r'.history.drained == r.history.drained && r'.history.bound == r.history.bound
            && r'.history.accepted == r.history.accepted + [Accepted(receipt, origin, Delivered)]
    ensures forall c | c in r.conns ::
              RouteMessage(r, origin, receipt).conns[c] ==
              if c in ConnectionsFor(r, receipt.recipient)
              then r.conns[c].Put(Routed(receipt, |r.history.accepted|), r.limits.maxPendingOutbound)
              else r.conns[c]
    ensures forall c | c in r.conns ::
              && RouteMessage(r, origin, receipt).conns[c].account == r.conns[c].account
              && RouteMessage(r, origin, receipt).conns[c].provisional == r.conns[c].provisional
  {
  }

  lemma DeliveryKeepsOrdered(r: Relay, origin: ConnId, receipt: Receipt)
    requires Ordered(r) && Indexed(r) && r.limits.maxPendingOutbound > 0 && StatusFor(r, receipt.recipient).Delivered?
    ensures Ordered(RouteMessage(r, origin, receipt))
  {
    var r' := RouteMessage(r, origin, receipt);
    DeliveryFrame(r, origin, receipt);
    var a := Accepted(receipt, origin, Delivered);
    forall c | c in r'.conns ensures LogInOrder(r'.conns[c], r'.history.accepted) {
      assert LogInOrder(r.conns[c], r.history.accepted);
      if c in ConnectionsFor(r, receipt.recipient) {
        LivePutKeepsLog(r.conns[c], a, r.history.accepted, r.limits.maxPendingOutbound);
      } else {
        AcceptKeepsLog(r.conns[c], a, r.history.accepted);
      }
    }
  }

  lemma DeliveryKeepsConserved(r: Relay, origin: ConnId, receipt: Receipt)
    requires Conserved(r) && StatusFor(r, receipt.recipient).Delivered?
    ensures Conserved(RouteMessage(r, origin, receipt))
  {
    var r' := RouteMessage(r, origin, receipt);
    forall id
      ensures QueuedFor(r'.history.accepted, id) == DrainedFor(r'.history, id) + OfflineQueues.QueueOf(r'.offline, id)
    {
      QueuedForSnoc(r.history.accepted, Accepted(receipt, origin, Delivered), id);
      assert QueuedFor(r.history.accepted, id) == DrainedFor(r.history, id) + OfflineQueues.QueueOf(r.offline, id);
    }
  }

  lemma AcceptKeepsAuthentic(r: Relay, r': Relay, a: Accepted)
    requires Authentic(r)
    requires a.origin in r.history.bound && r.history.bound[a.origin].username == a.receipt.sender
    requires r'.history.accepted == r.history.accepted + [a] && r'.history.bound == r.history.bound
    requires r'.conns.Keys == r.conns.Keys
    requires forall c | c in r.conns :: r'.conns[c].account == r.conns[c].account
    ensures Authentic(r')
  {
  }

  lemma DeliveryKeepsSound(r: Relay, origin: ConnId, receipt: Receipt)
    requires Sound(r) && StatusFor(r, receipt.recipient).Delivered?
    requires origin in r.history.bound && r.history.bound[origin].username == receipt.sender
    ensures Sound(RouteMessage(r, origin, receipt))
  {
    var r' := RouteMessage(r, origin, receipt);
    DeliveryKeepsOrdered(r, origin, receipt);
    DeliveryKeepsConserved(r, origin, receipt);
    DeliveryFrame(r, origin, receipt);
    assert SameRegistry(r, r');
    SameRegistryKeepsIndexed(r, r');
    SameRegistryKeepsNoStaleBacklog(r, r');
    AcceptKeepsAuthentic(r, r', Accepted(receipt, origin, Delivered));
  }

  lemma QueueingFrame(r: Relay, origin: ConnId, receipt: Receipt)
    requires StatusFor(r, receipt.recipient).Queued?
    ensures var r' := RouteMessage(r, origin, receipt);
            && r'.conns == r.conns && r'.byClient == r.byClient && r'.limits == r.limits
            && r'.history.drained == r.history.drained && r'.history.bound == r.history.bound
            && r'.history.accepted == r.history.accepted + [Accepted(receipt, origin, Queued)]
            && r'.offline == r.offline[receipt.recipient := OfflineQueues.QueueOf(r.offline, receipt.recipient)
                                                            + [Routed(receipt, |r.history.accepted|)]]
  {
  }

  lemma QueueingKeepsOrdered(r: Relay, origin: ConnId, receipt: Receipt)
    requires Ordered(r) && StatusFor(r, receipt.recipient).Queued?
    ensures Ordered(RouteMessage(r, origin, receipt))
  {
    QueueingFrame(r, origin, receipt);
    forall c | c in r.conns
      ensures LogInOrder(r.conns[c], r.history.accepted + [Accepted(receipt, origin, Queued)])
    {
      AcceptKeepsLog(r.conns[c], Accepted(receipt, origin, Queued), r.history.accepted);
    }
  }

  lemma QueueingKeepsConserved(r: Relay, origin: ConnId, receipt: Receipt)
    requires Conserved(r) && StatusFor(r, receipt.recipient).Queued?
    ensures Conserved(RouteMessage(r, origin, receipt))
  {
    var r' := RouteMessage(r, origin, receipt);
    QueueingFrame(r, origin, receipt);
    forall id
      ensures QueuedFor(r'.history.accepted, id) == DrainedFor(r'.history, id) + OfflineQueues.QueueOf(r'.offline, id)
    {
      QueuedForSnoc(r.history.accepted, Accepted(receipt, origin, Queued), id);
      assert QueuedFor(r.history.accepted, id) == DrainedFor(r.history, id) + OfflineQueues.QueueOf(r.offline, id);
    }
  }

  lemma QueueingKeepsNoStaleBacklog(r: Relay, origin: ConnId, receipt: Receipt)
    requires Indexed(r) && NoStaleBacklog(r) && StatusFor(r, receipt.recipient).Queued?
    ensures NoStaleBacklog(RouteMessage(r, origin, receipt))
  {
    QueueingFrame(r, origin, receipt);
    forall c | c in r.conns ensures r.conns[c].Identity() != receipt.recipient {
      assert c in IdsOf(r.byClient, r.conns[c].Identity());
    }
  }

  lemma SameConnectionsKeepIndexed(r: Relay, r': Relay)
    requires Indexed(r) && r'.conns == r.conns && r'.byClient == r.byClient
    ensures Indexed(r')
  {
  }

  lemma QueueingKeepsIndexed(r: Relay, origin: ConnId, receipt: Receipt)
    requires Indexed(r) && StatusFor(r, receipt.recipient).Queued?
    ensures Indexed(RouteMessage(r, origin, receipt))
  {
    QueueingFrame(r, origin, receipt);
    SameConnectionsKeepIndexed(r, RouteMessage(r, origin, receipt));
  }

  lemma QueueingKeepsAuthentic(r: Relay, origin: ConnId, receipt: Receipt)
    requires Authentic(r) && StatusFor(r, receipt.recipient).Queued?
    requires origin in r.history.bound && r.history.bound[origin].username == receipt.sender
    ensures Authentic(RouteMessage(r, origin, receipt))
  {
    QueueingFrame(r, origin, receipt);
    AcceptKeepsAuthentic(r, RouteMessage(r, origin, receipt), Accepted(receipt, origin, Queued));
  }

  lemma QueueingKeepsSound(r: Relay, origin: ConnId, receipt: Receipt)
    requires Sound(r) && StatusFor(r, receipt.recipient).Queued?
    requires origin in r.history.bound && r.history.bound[origin].username == receipt.sender
    ensures Sound(RouteMessage(r, origin, receipt))
  {
    QueueingKeepsOrdered(r, origin, receipt);
    QueueingKeepsConserved(r, origin, receipt);
    QueueingKeepsNoStaleBacklog(r, origin, receipt);
    QueueingKeepsIndexed(r, origin, receipt);
    QueueingKeepsAuthentic(r, origin, receipt);
    assert RouteMessage(r, origin, receipt).limits == r.limits;
  }

  lemma RoutingKeepsSound(r: Relay, origin: ConnId, receipt: Receipt)
    requires Sound(r)
    requires origin in r.history.bound && r.history.bound[origin].username == receipt.sender
    ensures Sound(RouteMessage(r, origin, receipt))
  {
    match StatusFor(r, receipt.recipient) {
      case Delivered => DeliveryKeepsSound(r, origin, receipt);
      case Queued => QueueingKeepsSound(r, origin, receipt);
      case RecipientUnavailable => RefusalChangesNothing(r, origin, receipt);
    }
  }

  // ---------------------------------------------------------------- the registry

  lemma RegisterKeepsIndexed(r: Relay, c: ConnId, provisional: Identity)
    requires Indexed(r) && c !in r.conns
    ensures Indexed(Register(r, c, provisional))
  {
  }

  lemma RegisterKeepsOrdered(r: Relay, c: ConnId, provisional: Identity)
    requires Ordered(r)
    ensures Ordered(Register(r, c, provisional))
  {
  }

  lemma RegisterKeepsNoStaleBacklog(r: Relay, c: ConnId, provisional: Identity)
    requires NoStaleBacklog(r)
    ensures NoStaleBacklog(Register(r, c, provisional))
  {
  }

  lemma RegisterKeepsSound(r: Relay, c: ConnId, provisional: Identity)
    requires Sound(r) && c !in r.conns && c !in r.history.bound
    ensures Sound(Register(r, c, provisional))
  {
    RegisterKeepsIndexed(r, c, provisional);
    RegisterKeepsOrdered(r, c, provisional);
    RegisterKeepsNoStaleBacklog(r, c, provisional);
    assert Authentic(Register(r, c, provisional));
  }

  lemma UnregisterKeepsIndexed(r: Relay, c: ConnId)
    requires Indexed(r)
    ensures Indexed(Unregister(r, c))
  {
    if c in r.conns {
      var r' := Unregister(r, c);
      var id := r.conns[c].Identity();
      forall d | d in r'.conns ensures d in IdsOf(r'.byClient, r'.conns[d].Identity()) {
        assert d in IdsOf(r.byClient, r.conns[d].Identity());
        if r.conns[d].Identity() == id {
          assert d in r.byClient[id] - {c};
        }
      }
    }
  }

  lemma UnregisterKeepsSound(r: Relay, c: ConnId)
    requires Sound(r)
    ensures Sound(Unregister(r, c))
  {
    UnregisterKeepsIndexed(r, c);
    var r' := Unregister(r, c);
    assert NoStaleBacklog(r');
    assert Ordered(r');
    assert Authentic(r');
  }

  // ---------------------------------------------------------------- authentication

  /** Binding and draining, before the replies are put. */
  function Bound(r: Relay, c: ConnId, account: Account): Relay
    requires c in r.conns
  {
    Drain(BindIdentity(r, c, account), account.username)
  }

  lemma BindKeepsIndexed(r: Relay, c: ConnId, account: Account)
    requires Indexed(r) && c in r.conns
    ensures Indexed(BindIdentity(r, c, account))
  {
    var before := r.conns[c].Identity();
    var r' := BindIdentity(r, c, account);
    forall d | d in r'.conns ensures d in IdsOf(r'.byClient, r'.conns[d].Identity()) {
      if d != c {
        assert d in IdsOf(r.byClient, r.conns[d].Identity());
        if r.conns[d].Identity() == before {
          assert d in r.byClient[before] - {c};
        }
      }
    }
  }

  lemma BoundFrame(r: Relay, c: ConnId, account: Account)
    requires c in r.conns
    ensures var r' := Bound(r, c, account);
            && r'.conns == r.conns[c := r.conns[c].(account := Some(account), boundAt := |r.conns[c].log|)]
            && r'.byClient == BindIdentity(r, c, account).byClient
            && r'.limits == r.limits && r'.offline == r.offline - {account.username}
            && r'.history.accepted == r.history.accepted && r'.history.bound == r.history.bound[c := account]
            && r'.history.drained == r.history.drained[account.username :=
                 DrainedFor(r.history, account.username) + OfflineQueues.QueueOf(r.offline, account.username)]
  {
  }

  lemma BoundKeepsOrdered(r: Relay, c: ConnId, account: Account)
    requires Ordered(r) && c in r.conns && r.conns[c].account.None?
    ensures Ordered(Bound(r, c, account))
  {
    BoundFrame(r, c, account);
    var ctx := r.conns[c];
    assert LogInOrder(ctx, r.history.accepted);
    assert ctx.log[..|ctx.log|] == ctx.log && ctx.log[|ctx.log|..] == [];
  }

  lemma BoundKeepsConserved(r: Relay, c: ConnId, account: Account)
    requires Conserved(r) && c in r.conns
    ensures Conserved(Bound(r, c, account))
  {
    BoundFrame(r, c, account);
    var r' := Bound(r, c, account);
    forall k
      ensures QueuedFor(r'.history.accepted, k) == DrainedFor(r'.history, k) + OfflineQueues.QueueOf(r'.offline, k)
    {
      assert QueuedFor(r.history.accepted, k) == DrainedFor(r.history, k) + OfflineQueues.QueueOf(r.offline, k);
    }
  }

  lemma BoundKeepsAuthentic(r: Relay, c: ConnId, account: Account)
    requires Authentic(r) && c in r.conns && r.conns[c].account.None?
    ensures Authentic(Bound(r, c, account))
  {
    BoundFrame(r, c, account);
    assert c !in r.history.bound;
  }

  lemma BoundKeepsNoStaleBacklog(r: Relay, c: ConnId, account: Account)
    requires NoStaleBacklog(r) && c in r.conns
    ensures NoStaleBacklog(Bound(r, c, account))
  {
    BoundFrame(r, c, account);
  }

  lemma BoundKeepsSound(r: Relay, c: ConnId, account: Account)
    requires Sound(r) && c in r.conns && r.conns[c].account.None?
    ensures Sound(Bound(r, c, account))
  {
    BindKeepsIndexed(r, c, account);
    BoundKeepsOrdered(r, c, account);
    BoundKeepsConserved(r, c, account);
    BoundKeepsAuthentic(r, c, account);
    BoundKeepsNoStaleBacklog(r, c, account);
    BoundFrame(r, c, account);
  }

  /** The backlog handed to a freshly bound connection comes in order, all of it queued. */
  lemma BacklogInOrder(r: Relay, id: Identity)
    requires Sound(r)
    ensures InOrder(OfflineQueues.QueueOf(r.offline, id), id, r.history.accepted)
  {
    var all := QueuedFor(r.history.accepted, id);
    QueuedForInOrder(r.history.accepted, id);
    var n := |DrainedFor(r.history, id)|;
    assert all == DrainedFor(r.history, id) + OfflineQueues.QueueOf(r.offline, id);
    assert all[n..] == OfflineQueues.QueueOf(r.offline, id);
    InOrderSuffix(all, n, id, r.history.accepted);
  }

  lemma InOrderPrependOwn(e: Entry, es: seq<Entry>, id: Identity, accepted: seq<Accepted>)
    requires e.Own? && InOrder(es, id, accepted)
    ensures InOrder([e] + es, id, accepted)
  {
    var es' := [e] + es;
    forall i, j | 0 <= i < j < |es'| && es'[i].Routed? && es'[j].Routed?
      ensures es'[i].stamp < es'[j].stamp
      ensures WasQueued(es'[j], accepted) ==> WasQueued(es'[i], accepted)
    {
      assert es[i - 1].stamp < es[j - 1].stamp;
    }
  }

  /** What a freshly bound connection's log gains: a prefix of auth.ready and the backlog. */
  lemma ReplayKeepsOrdered(b: Relay, c: ConnId, id: Identity, ready: Entry, backlog: seq<Entry>)
    requires Ordered(b) && c in b.conns && ready.Own? && InOrder(backlog, id, b.history.accepted)
    requires b.conns[c].account.Some? && b.conns[c].Identity() == id && b.conns[c].boundAt == |b.conns[c].log|
    ensures Ordered(Respond(b, c, [ready] + backlog).relay)
  {
    var ctx := b.conns[c];
    var es := [ready] + backlog;
    var n := ctx.Fitting(|es|, b.limits.maxPendingOutbound);
    var ctx' := ctx.PutAll(es, b.limits.maxPendingOutbound);
    InOrderPrependOwn(ready, backlog, id, b.history.accepted);
    InOrderPrefix(es, n, id, b.history.accepted);
    assert ctx'.log[..ctx.boundAt] == ctx.log[..ctx.boundAt] && ctx'.log[ctx.boundAt..] == es[..n];
    assert LogInOrder(ctx, b.history.accepted) && LogInOrder(ctx', b.history.accepted);
  }

  lemma RespondKeepsRest(b: Relay, c: ConnId, es: seq<Entry>)
    requires Sound(b) && c in b.conns && Ordered(Respond(b, c, es).relay)
    ensures Sound(Respond(b, c, es).relay)
  {
    var r' := Respond(b, c, es).relay;
    assert SameRegistry(b, r');
    SameRegistryKeepsIndexed(b, r');
    SameRegistryKeepsNoStaleBacklog(b, r');
    assert Authentic(r');
  }

  lemma ReplyKeepsSound(r: Relay, c: ConnId, es: seq<Entry>)
    requires Sound(r) && c in r.conns && forall i | 0 <= i < |es| :: es[i].Own?
    ensures Sound(Respond(r, c, es).relay)
  {
    PutAllIsQuiet(r.conns[c], es, r.limits.maxPendingOutbound);
    QuietKeepsSound(r, c, r.conns[c].PutAll(es, r.limits.maxPendingOutbound));
  }

  lemma AuthenticationKeepsSound(r: Relay, c: ConnId, messageId: string, resolved: Option<Account>)
    requires Sound(r) && c in r.conns && r.conns[c].account.None?
    ensures Sound(FinishAuthentication(r, c, messageId, resolved).relay)
  {
    match resolved {
      case None => ReplyKeepsSound(r, c, [Own(ProtocolError(AuthFailed, Some(messageId)))]);
      case Some(account) =>
        var backlog := OfflineQueues.QueueOf(r.offline, account.username);
        var ready := Own(AuthReady(messageId, account));
        var b := Bound(r, c, account);
        BoundKeepsSound(r, c, account);
        BoundFrame(r, c, account);
        BacklogInOrder(r, account.username);
        ReplayKeepsOrdered(b, c, account.username, ready, backlog);
        RespondKeepsRest(b, c, [ready] + backlog);
    }
  }
}
