/** What became of the messages the relay answered `delivered`. */
module RelayFates {
  import opened Prelude
  import opened RelayModel
  import opened RelaySystem
  import opened RelayInvariants
  import opened RelayRouting
  import opened RelayTasks
  import opened RelayRuns
  import RateLimiting

  /** A connection's record, live or as it was left. */
  function RecordOf(w: World, c: ConnId): Option<Context> {
    if c in w.relay.conns then Some(w.relay.conns[c])
    else if c in w.tasks then w.tasks[c].left
    else None
  }

  /** All that was ever put into a connection's queue. */
  function LogOf(w: World, c: ConnId): seq<Entry> {
    match RecordOf(w, c)
    case Some(ctx) => ctx.log
    case None => []
  }

  // ---------------------------------------------------------------- one segment

  predicate HandedOver(r: Relay, i: nat)
    requires i < |r.history.accepted|
  {
    exists c :: c in r.conns && Routed(r.history.accepted[i].receipt, i) in r.conns[c].log
  }

  /** What was accepted and delivered since is in some connection's log. */
  predicate HandsOver(r: Relay, r': Relay) {
    && r.history.accepted <= r'.history.accepted
    && forall i | |r.history.accepted| <= i < |r'.history.accepted| && r'.history.accepted[i].status.Delivered? ::
         HandedOver(r', i)
  }

  predicate LogsGrow(r: Relay, r': Relay) {
    forall c | c in r.conns :: c in r'.conns && r.conns[c].log <= r'.conns[c].log
  }

  lemma HandsOverThenGrow(r: Relay, r1: Relay, r2: Relay)
    requires HandsOver(r, r1) && LogsGrow(r1, r2) && r2.history.accepted == r1.history.accepted
    ensures HandsOver(r, r2)
  {
    var accepted := r2.history.accepted;
    forall i | |r.history.accepted| <= i < |accepted| && accepted[i].status.Delivered?
      ensures HandedOver(r2, i)
    {
      assert HandedOver(r1, i);
      var c :| c in r1.conns && Routed(accepted[i].receipt, i) in r1.conns[c].log;
      assert c in r2.conns && Routed(accepted[i].receipt, i) in r2.conns[c].log;
    }
  }

  lemma RouteHandsOver(r: Relay, c: ConnId, receipt: Receipt)
    requires r.limits.Positive()
    ensures HandsOver(r, RouteMessage(r, c, receipt))
  {
    if StatusFor(r, receipt.recipient).Delivered? {
      DeliveryFrame(r, c, receipt);
      var capacity := r.limits.maxPendingOutbound;
      var d :| d in ConnectionsFor(r, receipt.recipient) && r.conns[d].Takes(capacity);
      PutEffect(r.conns[d], Routed(receipt, |r.history.accepted|), capacity);
      assert HandedOver(RouteMessage(r, c, receipt), |r.history.accepted|);
    }
  }

  lemma DispatchHandsOver(r: Relay, c: ConnId, env: Envelope)
    requires r.limits.Positive() && c in r.conns
    ensures HandsOver(r, Dispatch(r, c, env).relay)
  {
    if env.kind.MessageSend? {
      if MaySend(r.conns[c], env) {
        RouteHandsOver(r, c, ReceiptFor(r.conns[c].Identity(), env.recipient.value, env));
      }
      HandsOverThenGrow(r, AfterSend(r, c, env), Dispatch(r, c, env).relay);
    }
  }

  lemma FrameHandsOver(r: Relay, c: ConnId, frame: Frame, now: Instant)
    requires r.limits.Positive() && c in r.conns
    ensures HandsOver(r, HandleFrame(r, c, frame, now).relay)
  {
    if frame.bytes <= r.limits.maxMessageBytes {
      var ctx := r.conns[c];
      var window := RateLimiting.Tick(ctx.limiter, r.limits.windowSeconds, now);
      var counted := SetContext(r, c, ctx.(limiter := window));
      match ValidateInbound(ctx.account.Some?, frame.body) {
        case Refused(_) =>
        case Valid(env) => DispatchHandsOver(counted, c, env);
      }
    }
  }

  // ---------------------------------------------------------------- one event

  lemma ProceedKeepsLog(w: World, d: ConnId, o: Outcome, c: ConnId)
    requires d in w.tasks && d in w.relay.conns && AllGrown(w.relay, o.relay, d)
    ensures LogOf(w, c) <= LogOf(Proceed(w, d, o), c)
    ensures Proceed(w, d, o).relay.history == o.relay.history
  {
    if c in w.relay.conns {
      assert Grown(w.relay.conns[c], o.relay.conns[c]);
    }
  }

  lemma ServingKeepsLog(w: World, e: Event, c: ConnId)
    requires Enabled(w, e) && (e.Receive? || e.Resolve? || e.Deadline?)
    ensures LogOf(w, c) <= LogOf(Effect(w, e), c)
  {
    var r, d := w.relay, e.c;
    if e.Receive? {
      HandleFrameGrows(r, d, e.frame, e.now);
      ProceedKeepsLog(w, d, HandleFrame(r, d, e.frame, e.now), c);
    } else if e.Resolve? {
      AuthenticationGrows(r, d, w.tasks[d].phase.messageId, e.resolved);
      ProceedKeepsLog(w, d, FinishAuthentication(r, d, w.tasks[d].phase.messageId, e.resolved), c);
    } else {
      NotifyGrows(r, d, if r.conns[d].account.Some? then IdleTimeout else AuthRequired);
      ProceedKeepsLog(w, d, DeadlinePassed(r, d), c);
    }
  }

  lemma OpenKeepsLog(w: World, d: ConnId, provisional: Identity, c: ConnId)
    requires Consistent(w) && Enabled(w, Open(d, provisional))
    ensures LogOf(w, c) <= LogOf(Effect(w, Open(d, provisional)), c)
  {
    assert d !in w.relay.conns;
  }

  lemma OwnKeepsLog(w: World, e: Event, c: ConnId)
    requires Enabled(w, e) && (e.Accept? || e.Take? || e.Settle? || e.StopWriter? || e.Leave?)
    ensures LogOf(w, c) <= LogOf(Effect(w, e), c)
  {
    PutAllGrows(w.relay.conns[e.c], [Own(ConnectionReady(e.c))], w.relay.limits.maxPendingOutbound);
  }

  lemma FinishKeepsLog(w: World, d: ConnId, c: ConnId)
    requires Enabled(w, Finish(d))
    ensures LogOf(w, c) <= LogOf(Effect(w, Finish(d)), c)
  {
  }

  lemma StepKeepsLog(w: World, e: Event, c: ConnId)
    requires Consistent(w)
    ensures LogOf(w, c) <= LogOf(Apply(w, e), c)
  {
    if Enabled(w, e) {
      if e.Receive? || e.Resolve? || e.Deadline? {
        ServingKeepsLog(w, e, c);
      } else if e.Open? {
        OpenKeepsLog(w, e.c, e.provisional, c);
      } else if e.Finish? {
        FinishKeepsLog(w, e.c, c);
      } else {
        OwnKeepsLog(w, e, c);
      }
    }
  }

  /** Only a frame gets a message accepted. */
  lemma OthersAcceptNothing(w: World, e: Event)
    requires Enabled(w, e) && !e.Receive?
    ensures Effect(w, e).relay.history.accepted == w.relay.history.accepted
  {
  }

  lemma ReceiveAccepts(w: World, c: ConnId, frame: Frame, now: Instant)
    requires w.relay.limits.Positive() && Enabled(w, Receive(c, frame, now))
    ensures HandsOver(w.relay, Effect(w, Receive(c, frame, now)).relay)
  {
    var o := HandleFrame(w.relay, c, frame, now);
    FrameHandsOver(w.relay, c, frame, now);
    HandleFrameGrows(w.relay, c, frame, now);
    HandsOverThenGrow(w.relay, o.relay, Proceed(w, c, o).relay);
  }

  lemma StepHandsOver(w: World, e: Event)
    requires w.relay.limits.Positive()
    ensures HandsOver(w.relay, Apply(w, e).relay)
  {
    if Enabled(w, e) {
      if e.Receive? {
        ReceiveAccepts(w, e.c, e.frame, e.now);
      } else {
        OthersAcceptNothing(w, e);
      }
    }
  }

  // ---------------------------------------------------------------- runs

  /** The message accepted at `i` is, at its stamp, in the log of a connection. */
  ghost predicate InSomeLog(w: World, i: nat)
    requires i < |w.relay.history.accepted|
  {
    exists c :: Routed(w.relay.history.accepted[i].receipt, i) in LogOf(w, c)
  }

  ghost predicate AllHanded(w: World) {
    forall i | 0 <= i < |w.relay.history.accepted| && w.relay.history.accepted[i].status.Delivered? :: InSomeLog(w, i)
  }

  /** The logs left behind are in order, too. */
  ghost predicate LeftInOrder(w: World) {
    forall c | c in w.tasks && w.tasks[c].left.Some? :: LogInOrder(w.tasks[c].left.value, w.relay.history.accepted)
  }

  lemma StepKeepsHanded(w: World, e: Event)
    requires Good(w) && AllHanded(w)
    ensures AllHanded(Apply(w, e))
  {
    var w' := Apply(w, e);
    var accepted := w'.relay.history.accepted;
    StepHandsOver(w, e);
    forall i | 0 <= i < |accepted| && accepted[i].status.Delivered? ensures InSomeLog(w', i) {
      if i < |w.relay.history.accepted| {
        assert InSomeLog(w, i);
        var c :| Routed(accepted[i].receipt, i) in LogOf(w, c);
        StepKeepsLog(w, e, c);
        assert Routed(accepted[i].receipt, i) in LogOf(w', c);
      } else {
        assert HandedOver(w'.relay, i);
        var c :| c in w'.relay.conns && Routed(accepted[i].receipt, i) in w'.relay.conns[c].log;
        assert Routed(accepted[i].receipt, i) in LogOf(w', c);
      }
    }
  }

  lemma {:induction false} LaterInOrder(es: seq<Entry>, id: Identity, accepted: seq<Accepted>, later: seq<Accepted>)
    requires InOrder(es, id, accepted) && accepted <= later
    ensures InOrder(es, id, later)
    decreases |later|
  {
    if |later| > |accepted| {
      var n := |later| - 1;
      LaterInOrder(es, id, accepted, later[..n]);
      InOrderMonotone(es, id, later[..n], later[n]);
      assert later[..n] + [later[n]] == later;
    } else {
      assert later == accepted;
    }
  }

  lemma LaterLogInOrder(ctx: Context, accepted: seq<Accepted>, later: seq<Accepted>)
    requires LogInOrder(ctx, accepted) && accepted <= later
    ensures LogInOrder(ctx, later)
  {
    var b := Boundary(ctx);
    LaterInOrder(ctx.log[..b], ctx.provisional, accepted, later);
    LaterInOrder(ctx.log[b..], ctx.Identity(), accepted, later);
  }

  lemma WhoLeft(w: World, e: Event, c: ConnId)
    requires c in Apply(w, e).tasks && Apply(w, e).tasks[c].left.Some?
    ensures || (c in w.tasks && w.tasks[c].left == Apply(w, e).tasks[c].left)
            || (c in w.relay.conns && Some(w.relay.conns[c]) == Apply(w, e).tasks[c].left)
  {
  }

  lemma StepKeepsLeftInOrder(w: World, e: Event)
    requires Good(w) && LeftInOrder(w)
    ensures LeftInOrder(Apply(w, e))
  {
    var w' := Apply(w, e);
    StepHandsOver(w, e);
    forall c | c in w'.tasks && w'.tasks[c].left.Some?
      ensures LogInOrder(w'.tasks[c].left.value, w'.relay.history.accepted)
    {
      WhoLeft(w, e, c);
      if c in w.tasks && w.tasks[c].left == w'.tasks[c].left {
        assert LogInOrder(w.tasks[c].left.value, w.relay.history.accepted);
      } else {
        assert LogInOrder(w.relay.conns[c], w.relay.history.accepted);
      }
      LaterLogInOrder(w'.tasks[c].left.value, w.relay.history.accepted, w'.relay.history.accepted);
    }
  }

  lemma {:induction false} RunsKeepHanded(limits: Limits, events: seq<Event>)
    requires limits.Positive()
    ensures AllHanded(Exec(Start(limits), events)) && LeftInOrder(Exec(Start(limits), events))
  {
    if events == [] {
    } else {
      var n := |events| - 1;
      RunsKeepHanded(limits, events[..n]);
      Always(limits, events[..n]);
      StepKeepsHanded(Exec(Start(limits), events[..n]), events[n]);
      StepKeepsLeftInOrder(Exec(Start(limits), events[..n]), events[n]);
    }
  }

  /** The routing identity a connection had when the k-th entry of its log was put. */
  function IdentityAt(ctx: Context, k: nat): Identity {
    if k < Boundary(ctx) then ctx.provisional else ctx.Identity()
  }

  lemma InLogOfRecipient(ctx: Context, accepted: seq<Accepted>, receipt: Receipt, stamp: nat)
    requires LogInOrder(ctx, accepted) && Routed(receipt, stamp) in ctx.log
    ensures exists k ::
      0 <= k < |ctx.log| && ctx.log[k] == Routed(receipt, stamp) && IdentityAt(ctx, k) == receipt.recipient
  {
    var k :| 0 <= k < |ctx.log| && ctx.log[k] == Routed(receipt, stamp);
    var b := Boundary(ctx);
    if k < b {
      assert Matches(ctx.log[..b][k], ctx.provisional, accepted);
    } else {
      assert Matches(ctx.log[b..][k - b], ctx.Identity(), accepted);
    }
    assert IdentityAt(ctx, k) == receipt.recipient;
  }

  /** Every message answered `delivered` was put, under its stamp, into the queue of a connection that
      had the recipient's routing identity then, even if that connection has left since. */
  lemma DeliveredIsHanded(w: World, i: nat)
    requires Reachable(w) && i < |w.relay.history.accepted| && w.relay.history.accepted[i].status.Delivered?
    ensures var receipt := w.relay.history.accepted[i].receipt;
      exists c, k ::
        && RecordOf(w, c).Some? && 0 <= k < |LogOf(w, c)| && LogOf(w, c)[k] == Routed(receipt, i)
        && IdentityAt(RecordOf(w, c).value, k) == receipt.recipient
  {
    var limits: Limits, events :| limits.Positive() && w == Exec(Start(limits), events);
    RunsKeepHanded(limits, events);
    ReachableIsGood(w);
    var receipt := w.relay.history.accepted[i].receipt;
    assert InSomeLog(w, i);
    var c :| Routed(receipt, i) in LogOf(w, c);
    InLogOfRecipient(RecordOf(w, c).value, w.relay.history.accepted, receipt, i);
  }
}
