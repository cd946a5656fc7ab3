/** What one event promises: acknowledgements, replay of the backlog, isolation before authentication. */
module RelayProtocol {
  import opened Prelude
  import opened RelayModel
  import opened RelaySystem
  import opened RelayInvariants
  import opened RelayRouting
  import opened RelayTasks
  import opened RelayRuns
  import RelayTheorems
  import OfflineQueues

  // ---------------------------------------------------------------- acknowledgements

  predicate Hosts(r: Relay, id: Identity, c: ConnId) {
    c in r.conns && r.conns[c].Identity() == id
  }

  function With(ctx: Context, e: Entry): Context {
    ctx.(pending := ctx.pending + [e], unfinished := ctx.unfinished + 1, log := ctx.log + [e])
  }

  lemma TargetsAreHosts(r: Relay, id: Identity)
    requires Indexed(r)
    ensures forall c :: c in ConnectionsFor(r, id) <==> Hosts(r, id, c)
    ensures IsConnected(r, id) <==> exists c :: Hosts(r, id, c)
  {
    RelayTheorems.IndexedIsInverse(r);
    forall c | c in r.conns && r.conns[c].Identity() == id ensures Hosts(r, id, c) && c in IdsOf(r.byClient, id) {
    }
  }

  /** `delivered`: some connection of the recipient takes the message, and then each that can take it
      gains it exactly once. `queued`: the recipient has no connection, and the message becomes the
      tail of its offline queue. Otherwise nothing at all changes. */
  lemma AcknowledgementIsExact(r: Relay, origin: ConnId, receipt: Receipt)
    requires Indexed(r) && r.limits.Positive()
    ensures var id, capacity := receipt.recipient, r.limits.maxPendingOutbound;
            var e, r' := Routed(receipt, |r.history.accepted|), RouteMessage(r, origin, receipt);
            match StatusFor(r, id)
            case Delivered =>
              && (exists c :: Hosts(r, id, c) && r.conns[c].Takes(capacity))
              && r'.conns.Keys == r.conns.Keys && r'.byClient == r.byClient && r'.offline == r.offline
              && (forall c | c in r.conns ::
                    r'.conns[c] ==
                    if Hosts(r, id, c) && r.conns[c].Takes(capacity) then With(r.conns[c], e) else r.conns[c])
            case Queued =>
              && (forall c :: !Hosts(r, id, c))
              && r'.conns == r.conns && r'.byClient == r.byClient
              && |OfflineQueues.QueueOf(r.offline, id)| < r.limits.maxQueuedPerRecipient
              && r'.offline == r.offline[id := OfflineQueues.QueueOf(r.offline, id) + [e]]
            case RecipientUnavailable =>
              && r' == r
              && (forall c | Hosts(r, id, c) :: !r.conns[c].Takes(capacity))
              && ((exists c :: Hosts(r, id, c))
                  || !OfflineQueues.Accepts(r.offline, id,
                      r.limits.maxQueuedPerRecipient, r.limits.maxQueuedRecipients))
            case Rejected => false
  {
    var id := receipt.recipient;
    TargetsAreHosts(r, id);
    match StatusFor(r, id) {
      case Delivered =>
        DeliveryFrame(r, origin, receipt);
        forall c | c in r.conns
          ensures RouteMessage(r, origin, receipt).conns[c]
                  == if Hosts(r, id, c) && r.conns[c].Takes(r.limits.maxPendingOutbound)
                     then With(r.conns[c], Routed(receipt, |r.history.accepted|)) else r.conns[c]
        {
          PutEffect(r.conns[c], Routed(receipt, |r.history.accepted|), r.limits.maxPendingOutbound);
        }
      case Queued => QueueingFrame(r, origin, receipt);
      case RecipientUnavailable => RefusalChangesNothing(r, origin, receipt);
    }
  }

  function Acks(es: seq<Entry>): nat {
    if es == [] then 0
    else
      var last := es[|es| - 1];
      Acks(es[..|es| - 1]) + if last.Own? && last.message.DeliveryAck? then 1 else 0
  }

  lemma AcksOfTwo(a: Entry, b: Entry)
    ensures Acks([]) == 0 && Acks([a]) == (if a.Own? && a.message.DeliveryAck? then 1 else 0)
    ensures Acks([a, b]) == Acks([a]) + Acks([b])
  {
    assert [a, b][..1] == [a] && [a][..0] == [] && [b][..0] == [];
  }

  /** Whether a message.send will be acknowledged to its sender: the reply needs room, next to the
      receipt when the message is addressed to the sender itself, and a message without a recipient
      gets an error instead. */
  predicate WillBeAcked(ctx: Context, env: Envelope, capacity: nat) {
    if env.sender != ctx.Identity() then |ctx.pending| + 2 <= capacity
    else env.recipient.Some? && |ctx.pending| + (if env.recipient.value == ctx.Identity() then 2 else 1) <= capacity
  }

  /** What a message.send puts into its sender's own queue. */
  lemma OwnGain(r: Relay, c: ConnId, env: Envelope)
    requires Indexed(r) && r.limits.Positive() && c in r.conns && !r.conns[c].closing
    requires |r.conns[c].pending| <= r.limits.maxPendingOutbound
    ensures var ctx := r.conns[c];
            var ctx' := AfterSend(r, c, env).conns[c];
            if MaySend(ctx, env) && env.recipient.value == ctx.Identity() && |ctx.pending| < r.limits.maxPendingOutbound
            then exists e: Entry :: e.Routed? && ctx' == With(ctx, e)
            else ctx' == ctx
    ensures AfterSend(r, c, env).limits == r.limits
  {
    if MaySend(r.conns[c], env) {
      var receipt := ReceiptFor(r.conns[c].Identity(), env.recipient.value, env);
      AcknowledgementIsExact(r, c, receipt);
      if env.recipient.value == r.conns[c].Identity() {
        assert Hosts(r, env.recipient.value, c);
      }
    }
  }

  lemma AcksAfter(prior: seq<Entry>, replies: seq<Entry>)
    requires |prior| <= 1 && |replies| <= 2 && Acks(prior) == 0
    ensures Acks(prior + replies) == Acks(replies)
  {
    if |replies| == 1 {
      assert (prior + replies)[..|prior|] == prior && replies[..0] == [];
    } else if |replies| == 2 {
      assert (prior + replies)[..|prior| + 1] == prior + replies[..1];
      assert (prior + replies[..1])[..|prior|] == prior && replies[..1][..0] == [];
      assert replies[..1] == [replies[0]];
    } else {
      assert prior + replies == prior;
    }
  }

  /** How many acknowledgements are among the replies that fit. */
  lemma AcksTaken(ctx: Context, replies: seq<Message>, capacity: nat)
    requires capacity > 0 && !ctx.closing && |ctx.pending| <= capacity
    requires |replies| == 1 || (|replies| == 2 && !replies[0].DeliveryAck? && replies[1].DeliveryAck?)
    ensures Acks(Owned(replies)[..ctx.Fitting(|replies|, capacity)])
            == if replies[|replies| - 1].DeliveryAck? && |ctx.pending| + |replies| <= capacity then 1 else 0
  {
    var es := Owned(replies);
    var taken := es[..ctx.Fitting(|replies|, capacity)];
    AcksOfTwo(es[0], es[0]);
    if |replies| == 2 {
      AcksOfTwo(es[0], es[1]);
      AcksOfTwo(es[1], es[1]);
      assert es == [es[0], es[1]];
      assert taken == [] || taken == [es[0]] || taken == es;
    } else {
      assert taken == [] || taken == [es[0]];
    }
  }

  /** The acknowledgements a queue gains when at most one routed message precedes the replies. */
  lemma SendGain(a: Context, b: Context, replies: seq<Message>, capacity: nat)
    requires b == a || exists e: Entry :: e.Routed? && b == With(a, e)
    requires capacity > 0 && !a.closing && |b.pending| <= capacity
    requires |replies| == 1 || (|replies| == 2 && !replies[0].DeliveryAck? && replies[1].DeliveryAck?)
    ensures var log := b.PutAll(Owned(replies), capacity).log;
            && a.log <= log
            && Acks(log[|a.log|..])
               == if replies[|replies| - 1].DeliveryAck? && |b.pending| + |replies| <= capacity then 1 else 0
  {
    AcksTaken(b, replies, capacity);
    var taken := Owned(replies)[..b.Fitting(|replies|, capacity)];
    if b == a {
      assert (a.log + taken)[|a.log|..] == taken;
    } else {
      var e: Entry :| e.Routed? && b == With(a, e);
      assert (b.log + taken)[|a.log|..] == [e] + taken;
      AcksOfTwo(e, e);
      AcksAfter([e], taken);
    }
  }

  /** A message.send puts exactly one acknowledgement into its sender's queue if there is room and a
      recipient, and otherwise none. */
  lemma OneAckPerSend(r: Relay, c: ConnId, env: Envelope)
    requires Indexed(r) && r.limits.Positive() && c in r.conns && !r.conns[c].closing
    requires |r.conns[c].pending| <= r.limits.maxPendingOutbound
    requires env.kind.MessageSend?
    ensures var ctx, o := r.conns[c], Dispatch(r, c, env);
            && c in o.relay.conns && ctx.log <= o.relay.conns[c].log
            && Acks(o.relay.conns[c].log[|ctx.log|..])
                == if WillBeAcked(ctx, env, r.limits.maxPendingOutbound) then 1 else 0
  {
    OwnGain(r, c, env);
    SendGain(r.conns[c], AfterSend(r, c, env).conns[c], SendReplies(r, c, env), r.limits.maxPendingOutbound);
  }

  // ---------------------------------------------------------------- authentication

  function Replay(r: Relay, messageId: string, account: Account): seq<Entry> {
    [Own(AuthReady(messageId, account))] + OfflineQueues.QueueOf(r.offline, account.username)
  }

  /** How many of `n` messages a queue with `pending` of `capacity` places taken has room for. */
  function Room(pending: nat, capacity: nat, n: nat): nat
    requires pending <= capacity
  {
    Min(n, capacity - pending)
  }

  lemma ReplayFits(r: Relay, c: ConnId, messageId: string, account: Account)
    requires c in r.conns && !r.conns[c].closing && r.limits.maxPendingOutbound > 0
    requires |r.conns[c].pending| <= r.limits.maxPendingOutbound
    ensures var o, es := FinishAuthentication(r, c, messageId, Some(account)), Replay(r, messageId, account);
            var n := Room(|r.conns[c].pending|, r.limits.maxPendingOutbound, |es|);
            && c in o.relay.conns && o.relay.conns[c].log == r.conns[c].log + es[..n]
            && o.relay.offline == r.offline - {account.username}
            && o.next == if n < |es| then Stop(PolicyViolation) else Continue
  {
    BoundFrame(r, c, account);
  }

  /** On authentication the outbound queue gains auth.ready and the backlog as far as they fit, in
      order; the offline queue is emptied either way. They fit, and the connection goes on serving,
      exactly when there is room for one more than the backlog. */
  lemma BacklogIsReplayed(w: World, c: ConnId, account: Account)
    requires Reachable(w) && Enabled(w, Resolve(c, Some(account)))
    ensures |w.relay.conns[c].pending| <= w.relay.limits.maxPendingOutbound
    ensures var w' := Apply(w, Resolve(c, Some(account)));
            var es := Replay(w.relay, w.tasks[c].phase.messageId, account);
            var n := Room(|w.relay.conns[c].pending|, w.relay.limits.maxPendingOutbound, |es|);
            && c in w'.relay.conns && c in w'.tasks
            && w'.relay.conns[c].log == w.relay.conns[c].log + es[..n]
            && w'.relay.offline == w.relay.offline - {account.username}
            && w'.tasks[c].phase == if n < |es| then Closing(PolicyViolation) else Serving
  {
    ReachableIsGood(w);
    assert Tracked(w.tasks[c], w.relay.conns[c]);
    ReplayFits(w.relay, c, w.tasks[c].phase.messageId, account);
  }

  /** The whole backlog reaches the connection exactly when there is room for it and for auth.ready;
      what does not fit has already left the offline queue. */
  lemma BacklogSurvivesExactly(w: World, c: ConnId, account: Account)
    requires Reachable(w) && Enabled(w, Resolve(c, Some(account)))
    ensures var w' := Apply(w, Resolve(c, Some(account)));
            && c in w'.relay.conns
            && (w'.relay.conns[c].log == w.relay.conns[c].log + Replay(w.relay, w.tasks[c].phase.messageId, account)
                <==> |w.relay.conns[c].pending| + 1 + |OfflineQueues.QueueOf(w.relay.offline, account.username)|
                     <= w.relay.limits.maxPendingOutbound)
  {
    BacklogIsReplayed(w, c, account);
    var es := Replay(w.relay, w.tasks[c].phase.messageId, account);
    assert es[..|es|] == es;
  }

  /** With one place more than the offline queue can hold, no backlog is ever cut short. */
  lemma NoLossWithRoom(w: World, c: ConnId, account: Account)
    requires Reachable(w) && Enabled(w, Resolve(c, Some(account)))
    requires |w.relay.conns[c].pending| + 1 + w.relay.limits.maxQueuedPerRecipient <= w.relay.limits.maxPendingOutbound
    ensures var w' := Apply(w, Resolve(c, Some(account)));
            && c in w'.relay.conns
            && w'.relay.conns[c].log == w.relay.conns[c].log + Replay(w.relay, w.tasks[c].phase.messageId, account)
  {
    ReachableIsGood(w);
    BacklogSurvivesExactly(w, c, account);
    assert QueuesBounded(w.relay.offline, w.relay.limits);
  }

  // ---------------------------------------------------------------- before authentication

  /** The frames of `c` short of a successful authentication. */
  predicate Unprivileged(e: Event, c: ConnId) {
    e.c == c && (e.Receive? || (e.Resolve? && e.resolved.None?))
  }

  /** Nothing but `c`'s own record and task differs. */
  predicate SameForOthers(w: World, w': World, c: ConnId) {
    && w'.relay.byClient == w.relay.byClient && w'.relay.offline == w.relay.offline
    && w'.relay.history == w.relay.history && w'.relay.limits == w.relay.limits
    && w'.relay.conns - {c} == w.relay.conns - {c}
    && w'.tasks - {c} == w.tasks - {c}
  }

  predicate OwnOnly(r: Relay, r': Relay, c: ConnId) {
    && c in r.conns && c in r'.conns && r' == SetContext(r, c, r'.conns[c])
    && r'.conns[c].account == r.conns[c].account
  }

  lemma UnauthenticatedFrame(r: Relay, c: ConnId, frame: Frame, now: Instant)
    requires c in r.conns && r.conns[c].account.None?
    ensures OwnOnly(r, HandleFrame(r, c, frame, now).relay, c)
  {
    var o := HandleFrame(r, c, frame, now);
    assert o.relay.conns == r.conns[c := o.relay.conns[c]];
  }

  lemma ProceedIsLocal(w: World, c: ConnId, o: Outcome)
    requires c in w.tasks && OwnOnly(w.relay, o.relay, c)
    ensures var w' := Proceed(w, c, o);
            SameForOthers(w, w', c) && c in w'.relay.conns && w'.relay.conns[c].account == w.relay.conns[c].account
  {
    var w' := Proceed(w, c, o);
    assert w'.relay.conns - {c} == w.relay.conns - {c};
    assert w'.tasks - {c} == w.tasks - {c};
  }

  lemma UnprivilegedStep(w: World, c: ConnId, e: Event)
    requires Unprivileged(e, c) && c in w.relay.conns && w.relay.conns[c].account.None?
    ensures var w' := Apply(w, e);
            SameForOthers(w, w', c) && c in w'.relay.conns && w'.relay.conns[c].account.None?
  {
    if Enabled(w, e) {
      if e.Receive? {
        UnauthenticatedFrame(w.relay, c, e.frame, e.now);
        ProceedIsLocal(w, c, HandleFrame(w.relay, c, e.frame, e.now));
      } else {
        ProceedIsLocal(w, c, FinishAuthentication(w.relay, c, w.tasks[c].phase.messageId, None));
      }
    }
  }

  /** Whatever an unauthenticated connection sends, short of authenticating, nobody else's queue,
      the offline queue, the index and the history are as they were. */
  lemma {:induction false} UnauthenticatedIsIsolated(w: World, c: ConnId, events: seq<Event>)
    requires c in w.relay.conns && w.relay.conns[c].account.None?
    requires forall i | 0 <= i < |events| :: Unprivileged(events[i], c)
    ensures var w' := Exec(w, events);
            SameForOthers(w, w', c) && c in w'.relay.conns && w'.relay.conns[c].account.None?
  {
    if events == [] {
    } else {
      var n := |events| - 1;
      UnauthenticatedIsIsolated(w, c, events[..n]);
      UnprivilegedStep(Exec(w, events[..n]), c, events[n]);
    }
  }

  // ---------------------------------------------------------------- the offline queue of the authenticated

  /** No account with an authenticated connection has anything queued offline. */
  lemma NoBacklogWhileAuthenticated(w: World, c: ConnId)
    requires Reachable(w) && c in w.relay.conns && w.relay.conns[c].account.Some?
    ensures w.relay.conns[c].account.value.username !in w.relay.offline
  {
    ReachableIsGood(w);
  }

  // ---------------------------------------------------------------- the per-client limit

  /** Binding does not look at the per-client limit: an account's connections stay within it exactly
      when they were below it before. */
  lemma BindingAgainstClientLimit(r: Relay, c: ConnId, account: Account)
    requires Indexed(r) && c in r.conns && r.conns[c].Identity() != account.username
    ensures var before := |IdsOf(r.byClient, account.username)|;
            var after := |IdsOf(BindIdentity(r, c, account).byClient, account.username)|;
            var limit := r.limits.maxConnectionsPerClient;
            after <= limit <==> before < limit
  {
  }
}
