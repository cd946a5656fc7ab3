/**
 The relay's mutable objects (server/app/websocket/manager.py), proved to do what RelayModel says.
 Ghost fields carry the bookkeeping of the model: which accepted message a queued one is, the log of
 a connection, the relay's history.
 */
module RelayObjects {
  import opened Prelude
  import opened RateLimiting
  import opened OfflineQueues
  import RelayModel
  import RelaySystem

  type Message = RelayModel.Message
  type Entry = RelayModel.Entry

  class ConnectionContext {
    const connectionId: ConnId
    const transportClientId: Identity
    const rateLimiter: RateLimiter
    const maxPending: nat

    var outbound: seq<Message>
    var unfinished: nat
    var authenticated: bool
    var userId: Option<string>
    var accountUsername: Option<Identity>
    var sessionId: Option<string>
    var closing: bool

    ghost var pending: seq<Entry>
    ghost var log: seq<Entry>
    ghost var boundAt: nat

    ghost predicate Valid()
      reads this
    {
      && outbound == RelayModel.Messages(pending)
      && (authenticated <==> userId.Some?)
      && (authenticated <==> accountUsername.Some?)
      && (authenticated <==> sessionId.Some?)
    }

    ghost function View(): RelayModel.Context
      requires Valid()
      reads this, rateLimiter
    {
      RelayModel.Context(
        transportClientId,
        if authenticated then Some(Account(userId.value, accountUsername.value, sessionId.value)) else None,
        closing, rateLimiter.View(), pending, unfinished, log, boundAt)
    }

    /** This is connection `c` under `limits`, and what the model says of it is `model`. */
    ghost predicate Is(c: ConnId, limits: RelayModel.Limits, model: RelayModel.Context)
      reads this, rateLimiter
    {
      && connectionId == c && rateLimiter.owner == c && maxPending == limits.maxPendingOutbound
      && rateLimiter.maxMessages == limits.maxMessagesPerWindow && rateLimiter.windowSeconds == limits.windowSeconds
      && Valid() && View() == model
    }

    constructor (connectionId: ConnId, transportClientId: Identity, rateLimiter: RateLimiter, maxPending: nat)
      ensures Valid()
      ensures this.connectionId == connectionId && this.rateLimiter == rateLimiter && this.maxPending == maxPending
      ensures rateLimiter.View() == FRESH ==> View() == RelayModel.NewContext(transportClientId)
    {
      this.connectionId := connectionId;
      this.transportClientId := transportClientId;
      this.rateLimiter := rateLimiter;
      this.maxPending := maxPending;
      outbound, unfinished := [], 0;
      authenticated, userId, accountUsername, sessionId := false, None, None, None;
      closing := false;
      pending, log, boundAt := [], [], 0;
    }

    method Authenticate(userId: string, username: Identity, sessionId: string)
      requires Valid()
      modifies this
      ensures Valid()
      ensures View() == old(View()).(account := Some(Account(userId, username, sessionId)), boundAt := |old(log)|)
    {
      authenticated := true;
      this.userId := Some(userId);
      accountUsername := Some(username);
      this.sessionId := Some(sessionId);
      boundAt := |log|;
    }

    function RoutingIdentity(): (id: Identity)
      reads this
      ensures Valid() ==> id == View().Identity()
    {
      if accountUsername.Some? then accountUsername.value else transportClientId
    }

    /** `e` is `message` with its place in the relay's history. */
    method EnqueueOutbound(message: Message, ghost e: Entry) returns (ok: bool)
      requires Valid() && e.message == message
      modifies this
      ensures Valid()
      ensures ok <==> old(View().Takes(maxPending))
      ensures View() == old(View()).Put(e, maxPending)
    {
      if closing {
        return false;
      }
      if maxPending != 0 && |outbound| >= maxPending {
        return false;
      }
      outbound := outbound + [message];
      unfinished := unfinished + 1;
      pending := pending + [e];
      log := log + [e];
      return true;
    }

    method MarkClosing()
      requires Valid()
      modifies this
      ensures Valid() && View() == old(View()).(closing := true)
    {
      closing := true;
    }

    /** `outbound.get()` when a message is waiting. */
    method TakeOutbound() returns (message: Message)
      requires Valid() && View().pending != []
      modifies this
      ensures Valid()
      ensures message == old(View()).pending[0].message
      ensures View() == old(View()).(pending := old(View()).pending[1..])
    {
      message := outbound[0];
      outbound := outbound[1..];
      pending := pending[1..];
    }

    /** `outbound.task_done()`, which raises when called too often. */
    method TaskDone() returns (raised: bool)
      requires Valid()
      modifies this
      ensures Valid()
      ensures raised <==> old(unfinished) == 0
      ensures View() == RelaySystem.Credited(old(View()), 1)
    {
      raised := unfinished == 0;
      if !raised {
        unfinished := unfinished - 1;
      }
    }
  }

  /** The messages of every offline queue, without their places in the history. */
  function Erased(q: Queues<Entry>): (m: Queues<Message>)
    ensures m.Keys == q.Keys
  {
    map id | id in q :: RelayModel.Messages(q[id])
  }

  lemma SameSize<K, A, B>(m: map<K, A>, n: map<K, B>)
    requires m.Keys == n.Keys
    ensures |m| == |n|
  {
    assert |m| == |m.Keys| && |n| == |n.Keys|;
  }

  /** The contexts when all targets but `rest` have been offered the message. */
  ghost function AfterOffers(
    conns: map<ConnId, RelayModel.Context>, targets: set<ConnId>, rest: set<ConnId>, e: Entry, capacity: nat)
    : map<ConnId, RelayModel.Context>
  {
    RelayModel.PutEach(conns, targets - rest, e, capacity)
  }

  ghost predicate TakenByOne(
    conns: map<ConnId, RelayModel.Context>, targets: set<ConnId>, rest: set<ConnId>, capacity: nat)
  {
    exists c :: c in targets && c !in rest && c in conns && conns[c].Takes(capacity)
  }

  lemma NextOffer(
    conns: map<ConnId, RelayModel.Context>, targets: set<ConnId>, rest: set<ConnId>, c: ConnId, e: Entry, capacity: nat)
    requires c in conns && c in rest && c in targets
    ensures AfterOffers(conns, targets, rest, e, capacity)[c] == conns[c]
    ensures AfterOffers(conns, targets, rest - {c}, e, capacity)
            == AfterOffers(conns, targets, rest, e, capacity)[c := conns[c].Put(e, capacity)]
    ensures TakenByOne(conns, targets, rest - {c}, capacity)
            <==> TakenByOne(conns, targets, rest, capacity) || conns[c].Takes(capacity)
  {
  }

  lemma FirstAndLastOffer(conns: map<ConnId, RelayModel.Context>, targets: set<ConnId>, e: Entry, capacity: nat)
    ensures AfterOffers(conns, targets, targets, e, capacity) == conns && !TakenByOne(conns, targets, targets, capacity)
    ensures AfterOffers(conns, targets, {}, e, capacity) == RelayModel.PutEach(conns, targets, e, capacity)
    ensures TakenByOne(conns, targets, {}, capacity) <==>
            exists c :: c in targets && c in conns && conns[c].Takes(capacity)
  {
    assert targets - targets == {} && targets - {} == targets;
  }

  lemma ErasedEnqueue(q: Queues<Entry>, id: Identity, e: Entry, maxPerRecipient: nat, maxRecipients: nat)
    ensures Accepts(Erased(q), id, maxPerRecipient, maxRecipients) <==> Accepts(q, id, maxPerRecipient, maxRecipients)
    ensures Enqueued(Erased(q), id, e.message, maxPerRecipient, maxRecipients)
            == Erased(Enqueued(q, id, e, maxPerRecipient, maxRecipients))
  {
    SameSize(Erased(q), q);
    assert RelayModel.Messages(QueueOf(q, id) + [e]) == RelayModel.Messages(QueueOf(q, id)) + [e.message];
    assert RelayModel.Messages([]) == [];
    assert QueueOf(Erased(q), id) == RelayModel.Messages(QueueOf(q, id));
  }

  lemma ErasedDrain(q: Queues<Entry>, id: Identity)
    ensures Erased(q) - {id} == Erased(q - {id})
    ensures QueueOf(Erased(q), id) == RelayModel.Messages(QueueOf(q, id))
  {
    assert RelayModel.Messages([]) == [];
  }

  class ConnectionManager {
    const limits: RelayModel.Limits
    const offlineQueue: OfflineQueue<Message>

    var connections: map<ConnId, ConnectionContext>
    var byClient: map<Identity, set<ConnId>>

    ghost var contexts: map<ConnId, RelayModel.Context>
    ghost var backlog: Queues<Entry>
    ghost var history: RelayModel.History

    ghost function View(): RelayModel.Relay
      reads this
    {
      RelayModel.Relay(limits, contexts, byClient, backlog, history)
    }

    ghost function Limiters(): set<RateLimiter>
      reads this
    {
      set context | context in connections.Values :: context.rateLimiter
    }

    predicate Separate(context: ConnectionContext) {
      && context as object != this && context as object != offlineQueue
      && context.rateLimiter as object != this && context.rateLimiter as object != offlineQueue
    }

    ghost predicate Valid()
      reads this, offlineQueue, connections.Values, Limiters()
    {
      && (forall c :: c in contexts <==> c in connections)
      && (forall c | c in connections :: Separate(connections[c]) && connections[c].Is(c, limits, contexts[c]))
      && offlineQueue.maxPerRecipient == limits.maxQueuedPerRecipient
      && offlineQueue.maxRecipients == limits.maxQueuedRecipients
      && offlineQueue.queues == Erased(backlog)
    }

    constructor (limits: RelayModel.Limits)
      ensures Valid() && View() == RelayModel.Empty(limits)
      ensures fresh(offlineQueue)
    {
      this.limits := limits;
      offlineQueue := new OfflineQueue(limits.maxQueuedPerRecipient, limits.maxQueuedRecipients);
      connections, byClient := map[], map[];
      contexts, backlog, history := map[], map[], RelayModel.History([], map[], map[]);
    }

    /** A context is among the live connections under its own id. */
    predicate Holds(context: ConnectionContext)
      reads this
    {
      context.connectionId in connections && connections[context.connectionId] == context
    }

    method HasRoomFor(transportClientId: Identity) returns (room: bool)
      requires Valid()
      ensures room <==> RelayModel.MayRegister(View(), transportClientId)
    {
      assert connections.Keys == contexts.Keys;
      SameSize(connections, contexts);
      if |connections| >= limits.maxTotalConnections {
        return false;
      }
      var existing := if transportClientId in byClient then byClient[transportClientId] else {};
      return |existing| < limits.maxConnectionsPerClient;
    }

    /** A freshly made context joins the registry. */
    method Insert(context: ConnectionContext)
      requires Valid() && context.connectionId !in connections && context.maxPending == limits.maxPendingOutbound
      requires context.Valid() && context.View() == RelayModel.NewContext(context.transportClientId)
      requires context.rateLimiter.maxMessages == limits.maxMessagesPerWindow
      requires context.rateLimiter.windowSeconds == limits.windowSeconds
      requires context.rateLimiter.owner == context.connectionId
      modifies this`connections, this`byClient, this`contexts
      ensures Valid() && Holds(context)
      ensures View() == RelayModel.Register(old(View()), context.connectionId, context.transportClientId)
    {
      var c := context.connectionId;
      connections := connections[c := context];
      byClient := RelayModel.IndexAdd(byClient, context.transportClientId, c);
      contexts := contexts[c := context.View()];
    }

    /** `c` is the fresh uuid of the new connection; null stands for ConnectionRejected. */
    method Register(c: ConnId, transportClientId: Identity) returns (context: ConnectionContext?)
      requires Valid() && c !in connections
      modifies this`connections, this`byClient, this`contexts
      ensures Valid()
      ensures context != null <==> old(RelayModel.MayRegister(View(), transportClientId))
      ensures context == null ==> View() == old(View())
      ensures context != null ==> Holds(context) && context.connectionId == c
      ensures context != null ==> View() == RelayModel.Register(old(View()), c, transportClientId)
    {
      var room := HasRoomFor(transportClientId);
      if !room {
        return null;
      }
      var limiter := new RateLimiter(limits.maxMessagesPerWindow, limits.windowSeconds, c);
      context := new ConnectionContext(c, transportClientId, limiter, limits.maxPendingOutbound);
      Insert(context);
    }

    /** `context.authenticate(…)` on a registered connection. */
    method Authenticate(context: ConnectionContext, userId: string, username: Identity, sessionId: string)
      requires Valid() && Holds(context)
      modifies this`contexts, context
      ensures Valid()
      ensures var c := context.connectionId;
              var ctx := old(contexts)[c];
              contexts == old(contexts)[c := ctx.(account := Some(Account(userId, username, sessionId)),
                                                  boundAt := |ctx.log|)]
    {
      var c := context.connectionId;
      assert context.Is(c, limits, contexts[c]);
      context.Authenticate(userId, username, sessionId);
      contexts := contexts[c := context.View()];
    }

    method BindIdentity(context: ConnectionContext, userId: string, username: Identity, sessionId: string)
      requires Valid() && Holds(context)
      modifies this`byClient, this`contexts, this`history, context
      ensures Valid()
      ensures View() == RelayModel.BindIdentity(old(View()), context.connectionId, Account(userId, username, sessionId))
    {
      var c := context.connectionId;
      var previous := context.RoutingIdentity();
      assert context.Is(c, limits, contexts[c]);
      Authenticate(context, userId, username, sessionId);
      byClient := RelayModel.IndexAdd(RelayModel.IndexRemove(byClient, previous, c), username, c);
      history := history.(bound := history.bound[c := Account(userId, username, sessionId)]);
    }

    /** `context.mark_closing()` on a registered connection. */
    method MarkClosing(context: ConnectionContext)
      requires Valid() && Holds(context)
      modifies this`contexts, context
      ensures Valid()
      ensures contexts == old(contexts)[context.connectionId := old(contexts)[context.connectionId].(closing := true)]
    {
      var c := context.connectionId;
      assert context.Is(c, limits, contexts[c]);
      context.MarkClosing();
      contexts := contexts[c := context.View()];
    }

    /** `context.mark_closing()` on a connection no longer registered. */
    method Retire(context: ConnectionContext)
      requires Valid() && context.connectionId !in connections && context.Valid()
      modifies context
      ensures Valid() && context.Valid() && context.View() == old(context.View()).(closing := true)
    {
      forall d | d in connections ensures connections[d] != context {
        assert connections[d].Is(d, limits, contexts[d]);
      }
      context.MarkClosing();
    }

    /** The registry lets go of a connection. */
    method Pop(c: ConnId)
      requires Valid()
      modifies this`connections, this`contexts
      ensures Valid()
      ensures connections == old(connections) - {c} && contexts == old(contexts) - {c}
    {
      connections := connections - {c};
      contexts := contexts - {c};
    }

    method Unregister(c: ConnId) returns (context: ConnectionContext?)
      requires Valid()
      modifies this`connections, this`byClient, this`contexts, connections.Values
      ensures Valid()
      ensures context == if c in old(connections) then old(connections)[c] else null
      ensures context != null ==> context.closing
      ensures View() == RelayModel.Unregister(old(View()), c)
    {
      if c !in connections {
        return null;
      }
      context := connections[c];
      assert context.Is(c, limits, contexts[c]);
      Pop(c);
      Retire(context);
      byClient := RelayModel.IndexRemove(byClient, context.RoutingIdentity(), c);
    }

    method ConnectionsFor(id: Identity) returns (ids: set<ConnId>)
      requires Valid()
      ensures ids == RelayModel.ConnectionsFor(View(), id)
    {
      if id !in byClient {
        return {};
      }
      return set c | c in byClient[id] && c in connections;
    }

    method IsConnected(id: Identity) returns (connected: bool)
      ensures connected <==> RelayModel.IsConnected(View(), id)
    {
      return id in byClient && byClient[id] != {};
    }

    /** One connection is offered a message. */
    method Offer(c: ConnId, message: Message, ghost e: Entry) returns (ok: bool)
      requires Valid() && c in connections && e.message == message
      modifies this`contexts, connections[c]
      ensures Valid()
      ensures ok <==> old(contexts)[c].Takes(limits.maxPendingOutbound)
      ensures contexts == old(contexts)[c := old(contexts)[c].Put(e, limits.maxPendingOutbound)]
    {
      assert connections[c].Is(c, limits, contexts[c]);
      ok := connections[c].EnqueueOutbound(message, e);
      contexts := contexts[c := connections[c].View()];
    }

    /** Every target is offered the message, in any order. */
    method OfferAll(targets: set<ConnId>, message: Message, ghost e: Entry) returns (delivered: bool)
      requires Valid() && targets <= connections.Keys && e.message == message
      modifies this`contexts, connections.Values
      ensures Valid()
      ensures delivered <==> TakenByOne(old(contexts), targets, {}, limits.maxPendingOutbound)
      ensures contexts == AfterOffers(old(contexts), targets, {}, e, limits.maxPendingOutbound)
    {
      FirstAndLastOffer(contexts, targets, e, limits.maxPendingOutbound);
      delivered := false;
      var rest := targets;
      while rest != {}
        invariant Valid() && rest <= targets
        invariant contexts == AfterOffers(old(contexts), targets, rest, e, limits.maxPendingOutbound)
        invariant delivered <==> TakenByOne(old(contexts), targets, rest, limits.maxPendingOutbound)
        decreases rest
      {
        var c :| c in rest;
        NextOffer(old(contexts), targets, rest, c, e, limits.maxPendingOutbound);
        assert connections[c] in old(connections.Values);
        var ok := Offer(c, message, e);
        delivered := delivered || ok;
        rest := rest - {c};
      }
    }

    method DeliverToClient(id: Identity, message: Message, ghost e: Entry) returns (delivered: bool)
      requires Valid() && e.message == message
      modifies this`contexts, connections.Values
      ensures Valid()
      ensures delivered <==> old(RelayModel.SomeTakes(View(), id))
      ensures contexts == RelayModel.PutEach(
                old(contexts), old(RelayModel.ConnectionsFor(View(), id)), e, limits.maxPendingOutbound)
    {
      var targets := ConnectionsFor(id);
      FirstAndLastOffer(contexts, targets, e, limits.maxPendingOutbound);
      delivered := OfferAll(targets, message, e);
    }

    /** One inbound frame of the connection is counted by its limiter. */
    method CountFrame(context: ConnectionContext, now: Instant) returns (allowed: bool)
      requires Valid() && Holds(context)
      modifies this`contexts, context.rateLimiter
      ensures Valid()
      ensures var c := context.connectionId;
              var window := Tick(old(contexts)[c].limiter, limits.windowSeconds, now);
              && contexts == old(contexts)[c := old(contexts)[c].(limiter := window)]
              && (allowed <==> window.count <= limits.maxMessagesPerWindow)
    {
      var c := context.connectionId;
      assert context.Is(c, limits, contexts[c]);
      allowed := context.rateLimiter.Allow(now);
      contexts := contexts[c := context.View()];
    }

    /** `offline_queue.enqueue(…)`. */
    method QueueOffline(recipient: Identity, message: Message, ghost e: Entry) returns (ok: bool)
      requires Valid() && e.message == message
      modifies this`backlog, offlineQueue
      ensures Valid()
      ensures ok <==> Accepts(old(backlog), recipient, limits.maxQueuedPerRecipient, limits.maxQueuedRecipients)
      ensures backlog == Enqueued(old(backlog), recipient, e, limits.maxQueuedPerRecipient, limits.maxQueuedRecipients)
    {
      ErasedEnqueue(backlog, recipient, e, limits.maxQueuedPerRecipient, limits.maxQueuedRecipients);
      ok := offlineQueue.Enqueue(recipient, message);
      backlog := Enqueued(backlog, recipient, e, limits.maxQueuedPerRecipient, limits.maxQueuedRecipients);
    }

    /** Bookkeeping of a routed message's answer. */
    ghost method RecordAnswer(receipt: RelayModel.Receipt, origin: ConnId, status: RelayModel.DeliveryStatus)
      requires Valid()
      modifies this`history
      ensures Valid() && history == RelayModel.Record(old(history), receipt, origin, status)
    {
      history := RelayModel.Record(history, receipt, origin, status);
    }

    /** `offline_queue.count(…)`. */
    method CountOffline(recipient: Identity) returns (n: nat)
      requires Valid()
      ensures n == |QueueOf(backlog, recipient)|
    {
      ErasedDrain(backlog, recipient);
      n := offlineQueue.Count(recipient);
    }

    /** The writer gets the oldest message of a connection's queue. */
    method TakeOutbound(context: ConnectionContext) returns (message: Message)
      requires Valid() && Holds(context) && contexts[context.connectionId].pending != []
      modifies this`contexts, context
      ensures Valid()
      ensures var ctx := old(contexts)[context.connectionId];
              && message == ctx.pending[0].message
              && contexts == old(contexts)[context.connectionId := ctx.(pending := ctx.pending[1..])]
    {
      var c := context.connectionId;
      assert context.Is(c, limits, contexts[c]);
      message := context.TakeOutbound();
      contexts := contexts[c := context.View()];
    }

    /** `task_done` with its ValueError suppressed. */
    method TaskDone(context: ConnectionContext)
      requires Valid() && Holds(context)
      modifies this`contexts, context
      ensures Valid()
      ensures contexts
              == old(contexts)[context.connectionId := RelaySystem.Credited(old(contexts)[context.connectionId], 1)]
    {
      var c := context.connectionId;
      assert context.Is(c, limits, contexts[c]);
      var _ := context.TaskDone();
      contexts := contexts[c := context.View()];
    }

    /** `offline_queue.drain(…)`. */
    method DrainOffline(recipient: Identity) returns (messages: seq<Message>)
      requires Valid()
      modifies this`backlog, this`history, offlineQueue
      ensures Valid()
      ensures messages == RelayModel.Messages(QueueOf(old(backlog), recipient))
      ensures View() == RelayModel.Drain(old(View()), recipient)
    {
      ErasedDrain(backlog, recipient);
      messages := offlineQueue.Drain(recipient);
      history := RelayModel.Drain(View(), recipient).history;
      backlog := backlog - {recipient};
    }
  }
}
