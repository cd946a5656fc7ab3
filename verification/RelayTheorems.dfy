/** What holds of every run of the relay. */
module RelayTheorems {
  import opened Prelude
  import opened RelayModel
  import opened RelaySystem
  import opened RelayInvariants
  import opened RelayRouting
  import opened RelayTasks
  import opened RelayRuns
  import opened RelayReplies
  import OfflineQueues
  import Sums

  lemma ReachableIsIndexed(w: World)
    requires Reachable(w)
    ensures Indexed(w.relay)
  {
    ReachableIsGood(w);
  }

  // ---------------------------------------------------------------- the registry

  lemma IndexedIsInverse(r: Relay)
    requires Indexed(r)
    ensures forall id | id in r.byClient :: r.byClient[id] != {}
    ensures forall id, c :: c in IdsOf(r.byClient, id) <==> c in r.conns && r.conns[c].Identity() == id
    ensures forall id :: IsConnected(r, id) <==> exists c :: c in r.conns && r.conns[c].Identity() == id
  {
    forall id, c | c in r.conns && r.conns[c].Identity() == id ensures c in IdsOf(r.byClient, id) {
    }
    forall id | IsConnected(r, id) ensures exists c :: c in r.conns && r.conns[c].Identity() == id {
      var c :| c in r.byClient[id];
      assert c in r.conns && r.conns[c].Identity() == id;
    }
  }

  lemma IndexedPartitions(r: Relay)
    requires Indexed(r)
    ensures Sums.Total(Sums.Sizes(r.byClient)) == |r.conns|
  {
    forall k, l, c | k in r.byClient && l in r.byClient && c in r.byClient[k] && c in r.byClient[l] ensures k == l {
      assert r.conns[c].Identity() == k && r.conns[c].Identity() == l;
    }
    forall c ensures c in r.conns.Keys <==> exists id :: id in r.byClient && c in r.byClient[id] {
      if c in r.conns {
        assert c in IdsOf(r.byClient, r.conns[c].Identity());
      }
    }
    Sums.PartitionSize(r.byClient, r.conns.Keys);
    assert |r.conns.Keys| == |r.conns|;
  }

  /** The index is exactly the inverse of routing identity: it has the live connections of each
      identity, no empty set, and as many ids in all as there are connections. */
  lemma IndexIsInverse(w: World)
    requires Reachable(w)
    ensures forall id, c :: c in IdsOf(w.relay.byClient, id) <==>
            c in w.relay.conns && w.relay.conns[c].Identity() == id
    ensures forall id | id in w.relay.byClient :: w.relay.byClient[id] != {}
    ensures forall id :: IsConnected(w.relay, id) <==>
            exists c :: c in w.relay.conns && w.relay.conns[c].Identity() == id
    ensures Sums.Total(Sums.Sizes(w.relay.byClient)) == |w.relay.conns|
  {
    ReachableIsIndexed(w);
    IndexedIsInverse(w.relay);
    IndexedPartitions(w.relay);
  }

  // ---------------------------------------------------------------- order, conservation, authenticity

  /** The message receipts of `es` are a strictly increasing subsequence of the messages accepted for
      `id`, those that went through the offline queue first. */
  predicate ReceiptsInOrder(es: seq<Entry>, id: Identity, accepted: seq<Accepted>) {
    && (forall i | 0 <= i < |es| && es[i].message.MessageReceipt? ::
          && es[i].Routed? && es[i].stamp < |accepted|
          && accepted[es[i].stamp].receipt == es[i].message && es[i].message.recipient == id)
    && (forall i, j | 0 <= i < j < |es| && es[i].message.MessageReceipt? && es[j].message.MessageReceipt? ::
          && es[i].Routed? && es[j].Routed? && es[i].stamp < es[j].stamp
          && (WasQueued(es[j], accepted) ==> WasQueued(es[i], accepted)))
  }

  lemma ProperInOrder(es: seq<Entry>, id: Identity, accepted: seq<Accepted>)
    requires AllProper(es) && InOrder(es, id, accepted)
    ensures ReceiptsInOrder(es, id, accepted)
  {
    forall i | 0 <= i < |es| && es[i].message.MessageReceipt?
      ensures es[i].Routed? && Matches(es[i], id, accepted)
    {
      assert Proper(es[i]);
    }
  }

  /** Since it was bound, a connection was handed messages accepted for its account only, each at
      most once, in the order of their acceptance, the offline backlog ahead of live messages. */
  lemma DeliveryInOrder(w: World, c: ConnId)
    requires Reachable(w)
    requires c in w.relay.conns && w.relay.conns[c].account.Some?
    ensures var r := w.relay;
            var ctx := r.conns[c];
            && ctx.boundAt <= |ctx.log|
            && ReceiptsInOrder(ctx.log[ctx.boundAt..], ctx.account.value.username, r.history.accepted)
  {
    ReachableIsGood(w);
    ReachableIsProper(w);
    var ctx, accepted := w.relay.conns[c], w.relay.history.accepted;
    assert LogInOrder(ctx, accepted) && AllProper(ctx.log);
    ProperInOrder(ctx.log[ctx.boundAt..], ctx.account.value.username, accepted);
  }

  /** Nothing queued offline is evicted, duplicated or reordered: what was handed out, then what is
      still queued, is what was answered `queued`. */
  lemma OfflineQueueConserves(w: World, id: Identity)
    requires Reachable(w)
    ensures var r := w.relay;
            && QueuedFor(r.history.accepted, id) == DrainedFor(r.history, id) + OfflineQueues.QueueOf(r.offline, id)
            && InOrder(QueuedFor(r.history.accepted, id), id, r.history.accepted)
  {
    ReachableIsGood(w);
    QueuedForInOrder(w.relay.history.accepted, id);
  }

  predicate FromItsSender(e: Entry, h: History) {
    e.message.MessageReceipt? ==>
      && e.Routed? && e.stamp < |h.accepted| && h.accepted[e.stamp].receipt == e.message
      && h.accepted[e.stamp].origin in h.bound
      && h.bound[h.accepted[e.stamp].origin].username == e.message.sender
  }

  lemma LogFromSenders(r: Relay, ctx: Context, i: nat)
    requires Authentic(r) && LogInOrder(ctx, r.history.accepted) && AllProper(ctx.log) && i < |ctx.log|
    ensures FromItsSender(ctx.log[i], r.history)
  {
    assert Proper(ctx.log[i]);
    if i < Boundary(ctx) {
      assert Matches(ctx.log[..Boundary(ctx)][i], ctx.provisional, r.history.accepted);
    } else {
      assert Matches(ctx.log[Boundary(ctx)..][i - Boundary(ctx)], ctx.Identity(), r.history.accepted);
    }
  }

  lemma BacklogFromSenders(r: Relay, id: Identity, i: nat)
    requires Sound(r) && id in r.offline && AllProper(r.offline[id]) && i < |r.offline[id]|
    ensures FromItsSender(r.offline[id][i], r.history)
  {
    BacklogInOrder(r, id);
    assert Proper(r.offline[id][i]) && Matches(r.offline[id][i], id, r.history.accepted);
  }

  /** Every receipt in any queue names as sender the account bound to the connection it came from. */
  lemma SendersAreAuthentic(w: World)
    requires Reachable(w)
    ensures var r := w.relay;
            && (forall c, i | c in r.conns && 0 <= i < |r.conns[c].log| :: FromItsSender(r.conns[c].log[i], r.history))
            && (forall id, i | id in r.offline && 0 <= i < |r.offline[id]| ::
                  FromItsSender(r.offline[id][i], r.history))
  {
    ReachableIsGood(w);
    ReachableIsProper(w);
    var r := w.relay;
    forall c, i | c in r.conns && 0 <= i < |r.conns[c].log| ensures FromItsSender(r.conns[c].log[i], r.history) {
      LogFromSenders(r, r.conns[c], i);
    }
    forall id, i | id in r.offline && 0 <= i < |r.offline[id]| ensures FromItsSender(r.offline[id][i], r.history) {
      BacklogFromSenders(r, id, i);
    }
  }

  lemma ReceiveBindsNothing(w: World, c: ConnId, frame: Frame, now: Instant)
    requires Enabled(w, Receive(c, frame, now))
    ensures Effect(w, Receive(c, frame, now)).relay.history.bound == w.relay.history.bound
  {
    HandleFrameGrows(w.relay, c, frame, now);
  }

  lemma ResolveBinds(w: World, c: ConnId, resolved: Option<Account>)
    requires Enabled(w, Resolve(c, resolved))
    ensures Effect(w, Resolve(c, resolved)).relay.history.bound
            == if resolved.Some? then w.relay.history.bound[c := resolved.value] else w.relay.history.bound
  {
    if resolved.Some? {
      BoundFrame(w.relay, c, resolved.value);
    }
  }

  lemma OthersBindNothing(w: World, e: Event)
    requires Enabled(w, e) && !e.Receive? && !e.Resolve?
    ensures Effect(w, e).relay.history.bound == w.relay.history.bound
  {
  }

  lemma ResolvesUnbound(w: World, c: ConnId)
    requires Consistent(w) && Authentic(w.relay) && c in w.tasks && c in w.relay.conns && w.tasks[c].phase.Resolving?
    ensures c !in w.relay.history.bound
  {
    assert Tracked(w.tasks[c], w.relay.conns[c]);
  }

  /** Only a successful resolution, of a connection not yet bound, changes who is bound to what. */
  lemma BindingOfStep(w: World, e: Event)
    requires Consistent(w) && Authentic(w.relay)
    ensures var h, h' := w.relay.history, Apply(w, e).relay.history;
            if Enabled(w, e) && e.Resolve? && e.resolved.Some?
            then e.c !in h.bound && h'.bound == h.bound[e.c := e.resolved.value]
            else h'.bound == h.bound
  {
    if Enabled(w, e) {
      if e.Receive? {
        ReceiveBindsNothing(w, e.c, e.frame, e.now);
      } else if e.Resolve? {
        ResolvesUnbound(w, e.c);
        ResolveBinds(w, e.c, e.resolved);
      } else {
        OthersBindNothing(w, e);
      }
    }
  }

  lemma {:induction false} GoodForever(w: World, events: seq<Event>)
    requires Good(w)
    ensures Good(Exec(w, events))
  {
    if events == [] {
    } else {
      GoodForever(w, events[..|events| - 1]);
      ApplyKeepsGood(Exec(w, events[..|events| - 1]), events[|events| - 1]);
    }
  }

  lemma BoundStays(w: World, e: Event, c: ConnId)
    requires Good(w) && c in w.relay.history.bound
    ensures c in Apply(w, e).relay.history.bound
    ensures Apply(w, e).relay.history.bound[c] == w.relay.history.bound[c]
  {
    BindingOfStep(w, e);
  }

  lemma BoundIs(w: World, c: ConnId)
    requires Good(w) && c in w.relay.history.bound && c in w.relay.conns
    ensures w.relay.conns[c].account == Some(w.relay.history.bound[c])
  {
  }

  /** A connection's account, once bound, never changes, whatever happens afterwards. */
  lemma {:induction false} BindingIsPermanent(w: World, events: seq<Event>, c: ConnId)
    requires Good(w) && c in w.relay.history.bound
    ensures var account := w.relay.history.bound[c];
            var r := Exec(w, events).relay;
            && c in r.history.bound && r.history.bound[c] == account
            && (c in r.conns ==> r.conns[c].account == Some(account))
  {
    if events != [] {
      var most, e := events[..|events| - 1], events[|events| - 1];
      BindingIsPermanent(w, most, c);
      GoodForever(w, most);
      BoundStays(Exec(w, most), e, c);
    }
    var last := Exec(w, events);
    GoodForever(w, events);
    if c in last.relay.conns {
      BoundIs(last, c);
    }
  }

  // ---------------------------------------------------------------- the writer and the end of a connection

  /** Written, lost, in flight, pending: in this order, all that was ever put; at most one is lost. */
  lemma OutboundConserves(w: World, c: ConnId)
    requires Reachable(w)
    requires c in w.relay.conns
    ensures && c in w.tasks
            && w.relay.conns[c].log
               == w.tasks[c].written + w.tasks[c].lost + InFlight(w.tasks[c]) + w.relay.conns[c].pending
            && |w.tasks[c].lost| + |InFlight(w.tasks[c])| <= 1
  {
    ReachableIsGood(w);
    assert Tracked(w.tasks[c], w.relay.conns[c]);
  }

  lemma EmptyCounter(t: Task, ctx: Context)
    requires Tracked(t, ctx) && t.phase.Closing? && ctx.unfinished == 0
    ensures t.written == ctx.log <==> !t.writer.Stopped?
  {
    assert |ctx.log| == |t.written| + |t.lost| + |InFlight(t)| + |ctx.pending|;
    if !t.writer.Stopped? {
      assert t.lost == [] && InFlight(t) == [] && ctx.pending == [];
      assert t.written + [] + [] + [] == t.written;
    } else {
      match t.writer.how
      case Cancelled =>
      case Disconnected => assert t.lost != [];
      case Crashed => assert t.lost != [];
    }
  }

  /** When the flush before closing ends without its timeout, all that was ever put has been written
      if and only if no send has failed. */
  lemma FlushedMeansWritten(w: World, c: ConnId)
    requires Reachable(w)
    requires Enabled(w, StopWriter(c, false))
    ensures w.tasks[c].written == w.relay.conns[c].log <==> !w.tasks[c].writer.Stopped?
  {
    ReachableIsGood(w);
    EmptyCounter(w.tasks[c], w.relay.conns[c]);
  }

  lemma OwnClosingStep(w: World, e: Event)
    requires Enabled(w, e) && e.c in w.relay.conns && w.relay.conns[e.c].closing && e.c in w.tasks
    requires w.tasks[e.c].phase.Closing? || w.tasks[e.c].phase.Stopping? || w.tasks[e.c].phase.Ended?
    requires e.c in Effect(w, e).relay.conns
    ensures Effect(w, e).relay.conns[e.c].log == w.relay.conns[e.c].log && Effect(w, e).relay.conns[e.c].closing
  {
  }

  /** Handling another connection's frame offers this one at most a routed message. */
  lemma OthersTakeOnly(r: Relay, d: ConnId, frame: Frame, now: Instant, c: ConnId)
    requires d in r.conns && c in r.conns && c != d && r.conns[c].closing
    ensures c in HandleFrame(r, d, frame, now).relay.conns
    ensures HandleFrame(r, d, frame, now).relay.conns[c] == r.conns[c]
  {
  }

  lemma OtherClosingStep(w: World, e: Event, c: ConnId)
    requires Enabled(w, e) && e.c != c && c in w.relay.conns && w.relay.conns[c].closing
    requires c in Effect(w, e).relay.conns
    ensures Effect(w, e).relay.conns[c] == w.relay.conns[c]
  {
    if e.Receive? {
      OthersTakeOnly(w.relay, e.c, e.frame, e.now, c);
    }
  }

  lemma ClosingStep(w: World, e: Event, c: ConnId)
    requires c in w.relay.conns && w.relay.conns[c].closing && c in w.tasks
    requires w.tasks[c].phase.Closing? || w.tasks[c].phase.Stopping? || w.tasks[c].phase.Ended?
    requires c in Apply(w, e).relay.conns
    ensures Apply(w, e).relay.conns[c].log == w.relay.conns[c].log && Apply(w, e).relay.conns[c].closing
  {
    if Enabled(w, e) {
      if e.c == c {
        OwnClosingStep(w, e);
      } else {
        OtherClosingStep(w, e, c);
      }
    }
  }

  /** A connection id is used once. */
  lemma NoReturn(w: World, e: Event, c: ConnId)
    requires c in w.tasks
    ensures c in Apply(w, e).tasks
    ensures c in Apply(w, e).relay.conns ==> c in w.relay.conns
  {
    if Enabled(w, e) {
      match e {
        case Receive(d, frame, now) => HandleFrameGrows(w.relay, d, frame, now);
        case Resolve(d, resolved) => AuthenticationGrows(w.relay, d, w.tasks[d].phase.messageId, resolved);
        case _ =>
      }
    }
  }

  lemma {:induction false} ClosingStays(w: World, events: seq<Event>, c: ConnId)
    requires Good(w) && c in w.relay.conns && w.relay.conns[c].closing
    ensures var w' := Exec(w, events);
            && c in w'.tasks
            && (c in w'.relay.conns ==> w'.relay.conns[c].closing && w'.relay.conns[c].log == w.relay.conns[c].log)
  {
    assert Tracked(w.tasks[c], w.relay.conns[c]);
    if events == [] {
    } else {
      var n := |events| - 1;
      ClosingStays(w, events[..n], c);
      var before := Exec(w, events[..n]);
      GoodForever(w, events[..n]);
      NoReturn(before, events[n], c);
      if c in Apply(before, events[n]).relay.conns {
        assert Tracked(before.tasks[c], before.relay.conns[c]);
        ClosingStep(before, events[n], c);
      }
    }
  }

  /** A closing connection takes nothing more, whatever happens while it is still registered: what is
      dropped for it is never put. */
  lemma ClosingFreezesLog(w: World, events: seq<Event>, c: ConnId)
    requires Reachable(w) && c in w.relay.conns && w.relay.conns[c].closing
    ensures var w' := Exec(w, events);
            c in w'.relay.conns ==> w'.relay.conns[c].closing && w'.relay.conns[c].log == w.relay.conns[c].log
  {
    ReachableIsGood(w);
    ClosingStays(w, events, c);
  }

  /** A handler that has ended leaves its record in the registry exactly when the upgrade was not
      accepted or its writer died of an exception it does not handle. */
  lemma RecordOutlivesHandler(w: World, c: ConnId)
    requires Reachable(w)
    requires c in w.tasks && w.tasks[c].phase.Ended?
    ensures c in w.relay.conns <==> !w.tasks[c].accepted || w.tasks[c].writer == Stopped(Crashed)
  {
    ReachableIsGood(w);
  }

  // ---------------------------------------------------------------- memory

  ghost function Buffered(r: Relay): nat {
    Sums.Total(map c | c in r.conns :: |r.conns[c].pending|) + Sums.Total(Sums.Lengths(r.offline))
  }

  lemma MulMonotone(a: nat, b: nat, k: nat)
    requires a <= b
    ensures a * k <= b * k
  {
  }

  lemma BoundedMeansBuffered(r: Relay)
    requires Bounded(r)
    ensures var limits := r.limits;
            Buffered(r) <= limits.maxTotalConnections * limits.maxPendingOutbound
                           + limits.maxQueuedRecipients * limits.maxQueuedPerRecipient
  {
    var limits := r.limits;
    var pending := map c | c in r.conns :: |r.conns[c].pending|;
    assert pending.Keys == r.conns.Keys && Sums.Lengths(r.offline).Keys == r.offline.Keys;
    Sums.TotalBound(pending, limits.maxPendingOutbound);
    Sums.TotalBound(Sums.Lengths(r.offline), limits.maxQueuedPerRecipient);
    assert |pending| == |pending.Keys| == |r.conns.Keys| == |r.conns|;
    assert |Sums.Lengths(r.offline)| == |Sums.Lengths(r.offline).Keys| == |r.offline.Keys| == |r.offline|;
    MulMonotone(|pending|, limits.maxTotalConnections, limits.maxPendingOutbound);
    MulMonotone(|r.offline|, limits.maxQueuedRecipients, limits.maxQueuedPerRecipient);
  }

  lemma StepKeepsLimits(w: World, e: Event)
    ensures Apply(w, e).relay.limits == w.relay.limits
  {
    if Enabled(w, e) && e.Receive? {
      HandleFrameGrows(w.relay, e.c, e.frame, e.now);
    }
  }

  lemma {:induction false} LimitsAreFixed(w: World, events: seq<Event>)
    ensures Exec(w, events).relay.limits == w.relay.limits
  {
    if events == [] {
    } else {
      var n := |events| - 1;
      LimitsAreFixed(w, events[..n]);
      StepKeepsLimits(Exec(w, events[..n]), events[n]);
    }
  }

  /** All messages the relay ever holds at a time are within the product of the limits it started with,
      and no tracked recipient has an empty queue. */
  lemma BufferedIsBounded(limits: Limits, events: seq<Event>)
    requires limits.Positive()
    ensures var r := Exec(Start(limits), events).relay;
            && Buffered(r) <= limits.maxTotalConnections * limits.maxPendingOutbound
                              + limits.maxQueuedRecipients * limits.maxQueuedPerRecipient
            && forall id | id in r.offline :: r.offline[id] != []
  {
    Always(limits, events);
    LimitsAreFixed(Start(limits), events);
    BoundedMeansBuffered(Exec(Start(limits), events).relay);
  }
}
