/** What a frame is answered with, and what a message carries, in terms of the frame and the state alone. */
module RelayAnswers {
  import opened Prelude
  import opened RelayModel
  import opened RelaySystem
  import opened RelayInvariants
  import opened RelayRuns
  import opened RelayFates
  import opened RelayProtocol
  import OfflineQueues
  import RateLimiting
  import RelayRouting
  import RelayTasks
  import RelayTheorems

  // ---------------------------------------------------------------- what a message carries

  /** The accepted message is what the frame of `c` says, field by field. */
  predicate SaysWhatWasSent(a: Accepted, c: ConnId, frame: Frame) {
    && a.origin == c
    && frame.body.Object? && frame.body.versionOk && frame.body.wireType == Sendable(MessageSend)
    && frame.body.fields.Some?
    && var f := frame.body.fields.value;
       && a.receipt.messageId == f.messageId && a.receipt.timestamp == f.timestamp && a.receipt.payload == f.payload
       && f.recipient == Some(a.receipt.recipient) && a.receipt.sender == f.sender
  }

  lemma SendAccepts(r: Relay, c: ConnId, env: Envelope)
    requires c in r.conns && env.kind.MessageSend?
    ensures var accepted, accepted' := r.history.accepted, Dispatch(r, c, env).relay.history.accepted;
            || accepted' == accepted
            || (|accepted'| == |accepted| + 1 && accepted <= accepted'
                && var a := accepted'[|accepted|];
                   && a.origin == c && a.receipt.messageId == env.messageId && a.receipt.timestamp == env.timestamp
                   && a.receipt.payload == env.payload && env.recipient == Some(a.receipt.recipient)
                   && a.receipt.sender == env.sender == r.conns[c].Identity())
  {
  }

  lemma FrameAccepts(r: Relay, c: ConnId, frame: Frame, now: Instant)
    requires c in r.conns
    ensures var accepted, accepted' := r.history.accepted, HandleFrame(r, c, frame, now).relay.history.accepted;
            || accepted' == accepted
            || (|accepted'| == |accepted| + 1 && accepted <= accepted'
                && SaysWhatWasSent(accepted'[|accepted|], c, frame))
  {
    if frame.bytes <= r.limits.maxMessageBytes {
      var ctx := r.conns[c];
      var counted := SetContext(r, c, ctx.(limiter := RateLimiting.Tick(ctx.limiter, r.limits.windowSeconds, now)));
      match ValidateInbound(ctx.account.Some?, frame.body) {
        case Refused(_) =>
        case Valid(env) =>
          if env.kind.MessageSend? {
            SendAccepts(counted, c, env);
          }
      }
    }
  }

  /** The k-th event of the run is a frame that got this message accepted. */
  predicate SentAt(limits: Limits, events: seq<Event>, k: nat, i: nat, a: Accepted) {
    && k < |events| && events[k].Receive?
    && var w := Exec(Start(limits), events[..k]);
       && Enabled(w, events[k]) && |w.relay.history.accepted| == i
       && SaysWhatWasSent(a, events[k].c, events[k].frame)
  }

  lemma StepAccepts(w: World, e: Event)
    requires w.relay.limits.Positive()
    ensures var accepted, accepted' := w.relay.history.accepted, Apply(w, e).relay.history.accepted;
            || accepted' == accepted
            || (|accepted'| == |accepted| + 1 && accepted <= accepted' && Enabled(w, e) && e.Receive?
                && SaysWhatWasSent(accepted'[|accepted|], e.c, e.frame))
  {
    if Enabled(w, e) {
      if e.Receive? {
        FrameAccepts(w.relay, e.c, e.frame, e.now);
        RelayTasks.HandleFrameGrows(w.relay, e.c, e.frame, e.now);
      } else {
        OthersAcceptNothing(w, e);
      }
    }
  }

  ghost predicate Sent(limits: Limits, events: seq<Event>, i: nat, a: Accepted) {
    exists k: nat :: SentAt(limits, events, k, i, a)
  }

  lemma SentBefore(limits: Limits, events: seq<Event>, i: nat, a: Accepted)
    requires events != [] && Sent(limits, events[..|events| - 1], i, a)
    ensures Sent(limits, events, i, a)
  {
    var most := events[..|events| - 1];
    var k: nat :| SentAt(limits, most, k, i, a);
    assert most[..k] == events[..k];
    assert SentAt(limits, events, k, i, a);
  }

  /** What the last event added to the history. */
  lemma SentLast(limits: Limits, events: seq<Event>, i: nat)
    requires limits.Positive() && events != []
    requires i < |Exec(Start(limits), events).relay.history.accepted|
    ensures var before := Exec(Start(limits), events[..|events| - 1]).relay.history.accepted;
            var a := Exec(Start(limits), events).relay.history.accepted[i];
            if i < |before| then a == before[i] else Sent(limits, events, i, a)
  {
    var most, e := events[..|events| - 1], events[|events| - 1];
    var w := Exec(Start(limits), most);
    RelayTheorems.LimitsAreFixed(Start(limits), most);
    StepAccepts(w, e);
    if i >= |w.relay.history.accepted| {
      assert SentAt(limits, events, |events| - 1, i, Apply(w, e).relay.history.accepted[i]);
    }
  }

  lemma {:induction false} SentInRun(limits: Limits, events: seq<Event>, i: nat)
    requires limits.Positive() && i < |Exec(Start(limits), events).relay.history.accepted|
    ensures Sent(limits, events, i, Exec(Start(limits), events).relay.history.accepted[i])
  {
    if events == [] {
    } else {
      var most := events[..|events| - 1];
      var before := Exec(Start(limits), most).relay.history.accepted;
      SentLast(limits, events, i);
      if i < |before| {
        SentInRun(limits, most, i);
        SentBefore(limits, events, i, before[i]);
      }
    }
  }

  /** Every accepted message was sent: it carries, field by field, what a frame of its origin said at the
      moment it was accepted, under the username bound to that origin. */
  lemma MessagesAreUnaltered(limits: Limits, events: seq<Event>, i: nat)
    requires limits.Positive() && i < |Exec(Start(limits), events).relay.history.accepted|
    ensures var h := Exec(Start(limits), events).relay.history;
            var a := h.accepted[i];
            && Sent(limits, events, i, a)
            && a.origin in h.bound && a.receipt.sender == h.bound[a.origin].username
  {
    SentInRun(limits, events, i);
    Always(limits, events);
  }

  // ---------------------------------------------------------------- what an acknowledgement says

  /** A connection of this identity has the message accepted at `n` in its log. */
  ghost predicate HasHandedTo(r: Relay, id: Identity, n: nat) {
    exists d, e :: Hosts(r, id, d) && e in r.conns[d].log && e.Routed? && e.stamp == n
  }

  /** The message accepted at `n` is the new tail of the recipient's offline queue. */
  predicate IsNewTail(r: Relay, r': Relay, id: Identity, n: nat) {
    var before, after := OfflineQueues.QueueOf(r.offline, id), OfflineQueues.QueueOf(r'.offline, id);
    && |after| == |before| + 1 && before < after
    && after[|before|].Routed? && after[|before|].stamp == n
  }

  predicate NoneRouted(es: seq<Entry>) {
    forall i | 0 <= i < |es| :: es[i].Own?
  }

  /** Nothing was accepted, and nobody was handed anything routed. */
  ghost predicate NothingRouted(r: Relay, r': Relay) {
    && r'.history == r.history && r'.offline == r.offline && r'.conns.Keys == r.conns.Keys
    && forall d | d in r.conns :: r.conns[d].log <= r'.conns[d].log && NoneRouted(r'.conns[d].log[|r.conns[d].log|..])
  }

  /** The last message accepted has this status, and is the only one that was not before. */
  predicate LastAccepted(
      h: History, h': History, c: ConnId, messageId: string, recipient: Identity, status: DeliveryStatus)
  {
    && |h'.accepted| == |h.accepted| + 1 && h.accepted < h'.accepted
    && var a := h'.accepted[|h.accepted|];
       && a.origin == c && a.receipt.messageId == messageId && a.receipt.recipient == recipient
       && a.status == status
  }

  /** What the handling of a frame adds to its connection's log. */
  function Gained(r: Relay, r': Relay, c: ConnId): seq<Entry>
    requires c in r.conns && c in r'.conns && r.conns[c].log <= r'.conns[c].log
  {
    r'.conns[c].log[|r.conns[c].log|..]
  }

  /** The replies follow what routing has put. */
  lemma SendReplied(r: Relay, c: ConnId, env: Envelope)
    requires Indexed(r) && r.limits.Positive() && c in r.conns && env.kind.MessageSend?
    ensures var r1, o := AfterSend(r, c, env), Dispatch(r, c, env);
            && c in r1.conns && r.conns[c].log <= r1.conns[c].log && c in o.relay.conns
            && r1.conns[c].log <= o.relay.conns[c].log
            && o.relay.history == r1.history && o.relay.offline == r1.offline && o.relay.conns.Keys == r1.conns.Keys
            && (forall d | d in r1.conns && d != c :: o.relay.conns[d] == r1.conns[d])
            && o.relay.conns[c].Identity() == r1.conns[c].Identity()
            && (forall e | e in Gained(r1, o.relay, c) :: e in Owned(SendReplies(r, c, env)))
  {
    if MaySend(r.conns[c], env) {
      RelayTasks.RouteGrows(r, c, ReceiptFor(r.conns[c].Identity(), env.recipient.value, env));
    }
  }

  lemma HandedStays(r: Relay, r': Relay, c: ConnId, id: Identity, n: nat)
    requires HasHandedTo(r, id, n) && r'.conns.Keys == r.conns.Keys && c in r.conns
    requires forall d | d in r.conns && d != c :: r'.conns[d] == r.conns[d]
    requires r.conns[c].log <= r'.conns[c].log && r'.conns[c].Identity() == r.conns[c].Identity()
    ensures HasHandedTo(r', id, n)
  {
    var d, e :| Hosts(r, id, d) && e in r.conns[d].log && e.Routed? && e.stamp == n;
    assert Hosts(r', id, d) && e in r'.conns[d].log;
  }

  /** What routing has done when it says so. */
  lemma RoutingTells(r: Relay, c: ConnId, receipt: Receipt)
    requires Indexed(r) && r.limits.Positive() && c in r.conns
    ensures var r', n, id := RouteMessage(r, c, receipt), |r.history.accepted|, receipt.recipient;
            match StatusFor(r, id)
            case Delivered =>
              LastAccepted(r.history, r'.history, c, receipt.messageId, id, Delivered) && HasHandedTo(r', id, n)
            case Queued =>
              LastAccepted(r.history, r'.history, c, receipt.messageId, id, Queued) && IsNewTail(r, r', id, n)
            case RecipientUnavailable => r' == r
            case Rejected => false
  {
    AcknowledgementIsExact(r, c, receipt);
    if StatusFor(r, receipt.recipient).Delivered? {
      var d :| Hosts(r, receipt.recipient, d) && r.conns[d].Takes(r.limits.maxPendingOutbound);
      RelayRouting.DeliveryFrame(r, c, receipt);
      var e := Routed(receipt, |r.history.accepted|);
      assert Hosts(RouteMessage(r, c, receipt), receipt.recipient, d) && e in RouteMessage(r, c, receipt).conns[d].log;
    }
  }

  /** An acknowledgement names the message it is for, and what it says of it is so. */
  ghost predicate TellsTheTruth(r: Relay, r': Relay, c: ConnId, env: Envelope, e: Entry)
    requires c in r.conns
  {
    e.message.DeliveryAck? ==>
      && e.Own? && e.message.messageId == env.messageId
      && var own, n := env.sender == r.conns[c].Identity(), |r.history.accepted|;
         match e.message.status
         case Delivered =>
           && own && env.recipient.Some?
           && LastAccepted(r.history, r'.history, c, env.messageId, env.recipient.value, Delivered)
           && HasHandedTo(r', env.recipient.value, n)
         case Queued =>
           && own && env.recipient.Some?
           && LastAccepted(r.history, r'.history, c, env.messageId, env.recipient.value, Queued)
           && IsNewTail(r, r', env.recipient.value, n)
         case Rejected => !own && NothingRouted(r, r')
         case RecipientUnavailable => own && env.recipient.Some? && NothingRouted(r, r')
  }

  /** Routing puts at most one message into the sender's own queue, and it is no acknowledgement. */
  lemma RoutingPutsReceipts(r: Relay, c: ConnId, env: Envelope)
    requires Indexed(r) && r.limits.Positive() && c in r.conns && env.kind.MessageSend?
    ensures var r1 := AfterSend(r, c, env);
            && c in r1.conns && r.conns[c].log <= r1.conns[c].log
            && forall e | e in Gained(r, r1, c) :: e.message.MessageReceipt?
  {
    if MaySend(r.conns[c], env) {
      var receipt := ReceiptFor(r.conns[c].Identity(), env.recipient.value, env);
      AcknowledgementIsExact(r, c, receipt);
    }
  }

  lemma SendRoutesNothing(r: Relay, c: ConnId, env: Envelope)
    requires Indexed(r) && r.limits.Positive() && c in r.conns && env.kind.MessageSend? && AfterSend(r, c, env) == r
    ensures NothingRouted(r, Dispatch(r, c, env).relay)
  {
    SendReplied(r, c, env);
    var r' := Dispatch(r, c, env).relay;
    forall d | d in r.conns
      ensures r.conns[d].log <= r'.conns[d].log && NoneRouted(r'.conns[d].log[|r.conns[d].log|..])
    {
      if d == c {
        forall i | 0 <= i < |Gained(r, r', c)| ensures Gained(r, r', c)[i].Own? {
          assert Gained(r, r', c)[i] in Gained(r, r', c);
        }
      }
    }
  }

  lemma RepliesTell(r: Relay, c: ConnId, env: Envelope, e: Entry)
    requires Indexed(r) && r.limits.Positive() && c in r.conns && env.kind.MessageSend?
    requires e in Owned(SendReplies(r, c, env))
    ensures TellsTheTruth(r, Dispatch(r, c, env).relay, c, env, e)
  {
    var r' := Dispatch(r, c, env).relay;
    SendReplied(r, c, env);
    if MaySend(r.conns[c], env) {
      var receipt := ReceiptFor(r.conns[c].Identity(), env.recipient.value, env);
      RoutingTells(r, c, receipt);
      if StatusFor(r, receipt.recipient).RecipientUnavailable? {
        SendRoutesNothing(r, c, env);
      } else if StatusFor(r, receipt.recipient).Delivered? {
        HandedStays(AfterSend(r, c, env), r', c, receipt.recipient, |r.history.accepted|);
      }
    } else {
      SendRoutesNothing(r, c, env);
    }
  }

  /** Every acknowledgement a sender is given tells the truth: `delivered` exactly of a message that has
      been accepted as such and handed to a connection of its recipient, `queued` exactly of one that is
      the new tail of its recipient's queue, `rejected` exactly of a wrong sender's, and
      `recipient_unavailable` of one that nobody was handed and nobody will be. */
  lemma AcknowledgementsTell(r: Relay, c: ConnId, env: Envelope)
    requires Indexed(r) && r.limits.Positive() && c in r.conns && env.kind.MessageSend?
    ensures var r' := Dispatch(r, c, env).relay;
            && c in r'.conns && r.conns[c].log <= r'.conns[c].log
            && forall e | e in Gained(r, r', c) :: TellsTheTruth(r, r', c, env, e)
  {
    var r1, r' := AfterSend(r, c, env), Dispatch(r, c, env).relay;
    SendReplied(r, c, env);
    RoutingPutsReceipts(r, c, env);
    assert Gained(r, r', c) == Gained(r, r1, c) + Gained(r1, r', c);
    forall e | e in Gained(r, r', c) ensures TellsTheTruth(r, r', c, env, e) {
      if e !in Gained(r, r1, c) {
        assert e in Gained(r1, r', c);
        RepliesTell(r, c, env, e);
      }
    }
  }

  /** When which status is given, in terms of the connections and the queues. */
  lemma StatusExactly(r: Relay, id: Identity)
    requires Indexed(r) && r.limits.Positive()
    ensures StatusFor(r, id) == Delivered <==>
              exists d :: Hosts(r, id, d) && !r.conns[d].closing && |r.conns[d].pending| < r.limits.maxPendingOutbound
    ensures StatusFor(r, id) == Queued <==>
              && (forall d :: !Hosts(r, id, d))
              && |OfflineQueues.QueueOf(r.offline, id)| < r.limits.maxQueuedPerRecipient
              && (id in r.offline || |r.offline| < r.limits.maxQueuedRecipients)
    ensures StatusFor(r, id) != Rejected
  {
    TargetsAreHosts(r, id);
    if d :| Hosts(r, id, d) && !r.conns[d].closing && |r.conns[d].pending| < r.limits.maxPendingOutbound {
      assert d in ConnectionsFor(r, id) && r.conns[d].Takes(r.limits.maxPendingOutbound);
    }
  }
}
