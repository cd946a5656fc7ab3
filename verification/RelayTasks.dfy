/** How handler, writer and registry record of a connection fit together in every reachable state. */
module RelayTasks {
  import opened Prelude
  import opened RelayModel
  import opened RelaySystem
  import OfflineQueues
  import RateLimiting

  // ---------------------------------------------------------------- statements

  /** The message the writer holds between taking it and the end of its send. */
  function InFlight(t: Task): seq<Entry> {
    if t.writer.Sending? then [t.writer.e] else []
  }

  /** The handler can still unregister, or never will: the upgrade failed, or the writer died of an
      exception it does not handle. */
  predicate Stays(t: Task) {
    !t.phase.Ended? || !t.accepted || t.writer == Stopped(Crashed)
  }

  predicate TaskShape(t: Task) {
    && (t.phase.Accepting? ==> !t.accepted)
    && (t.phase.Serving? || t.phase.Resolving? || t.phase.Closing? || t.phase.Stopping? ==> t.accepted)
    && (t.accepted <==> !t.writer.NotStarted?)
    && (t.phase.Stopping? || (t.phase.Ended? && t.accepted) ==> t.writer.Stopped?)
    && (t.writer == Stopped(Cancelled) ==> t.phase.Stopping? || t.phase.Ended?)
    && (t.writer.NotStarted? ==> t.written == [])
  }

  /** At most one message is ever lost, and only by a writer that has stopped. */
  predicate LossShape(t: Task) {
    && |t.lost| <= 1
    && (t.lost != [] ==> t.writer.Stopped?)
    && (t.writer == Stopped(Disconnected) || t.writer == Stopped(Crashed) ==> t.lost != [])
  }

  /** Written, then lost or in flight, then pending: together all that was ever put, in order. */
  predicate Flow(t: Task, ctx: Context) {
    ctx.log == t.written + t.lost + InFlight(t) + ctx.pending
  }

  /** The queue's unfinished counter. A send that failed is counted off twice, so afterwards the
      counter may be one short of the messages left. */
  predicate Counter(t: Task, ctx: Context) {
    if t.writer == Stopped(Disconnected) then ctx.unfinished <= |ctx.pending| <= ctx.unfinished + 1
    else ctx.unfinished == |ctx.pending| + |InFlight(t)|
  }

  predicate ClosingShape(t: Task, ctx: Context) {
    && (ctx.closing <==> t.phase.Closing? || t.phase.Stopping? || (t.phase.Ended? && t.accepted))
    && (t.phase.Resolving? ==> ctx.account.None?)
  }

  predicate Tracked(t: Task, ctx: Context) {
    TaskShape(t) && LossShape(t) && Flow(t, ctx) && Counter(t, ctx) && ClosingShape(t, ctx)
  }

  predicate Consistent(w: World) {
    && w.relay.conns.Keys <= w.tasks.Keys
    && w.relay.history.bound.Keys <= w.tasks.Keys
    && (forall c | c in w.tasks :: TaskShape(w.tasks[c]) && LossShape(w.tasks[c]))
    && (forall c | c in w.tasks :: c in w.relay.conns <==> Stays(w.tasks[c]))
    && (forall c | c in w.relay.conns :: Tracked(w.tasks[c], w.relay.conns[c]))
  }

  // ---------------------------------------------------------------- what the handler's segments do to queues

  /** Messages were put behind what was there; nothing was taken. */
  predicate Grown(a: Context, b: Context) {
    && a.log <= b.log
    && b.pending == a.pending + b.log[|a.log|..]
    && b.unfinished == a.unfinished + |b.log| - |a.log|
    && b.closing == a.closing
    && b.provisional == a.provisional
  }

  lemma GrownTransitive(a: Context, b: Context, c: Context)
    requires Grown(a, b) && Grown(b, c)
    ensures Grown(a, c)
  {
    assert c.log[|a.log|..] == b.log[|a.log|..] + c.log[|b.log|..];
  }

  lemma PutAllGrows(ctx: Context, es: seq<Entry>, capacity: nat)
    ensures Grown(ctx, ctx.PutAll(es, capacity))
  {
    var taken := es[..ctx.Fitting(|es|, capacity)];
    assert (ctx.log + taken)[|ctx.log|..] == taken;
  }

  lemma GrownKeepsFlow(t: Task, a: Context, b: Context)
    requires Flow(t, a) && Counter(t, a) && Grown(a, b)
    ensures Flow(t, b) && Counter(t, b)
  {
    assert b.log == a.log + b.log[|a.log|..];
  }

  /** Every queue of `r` has only grown in `r'`; only `c` may have got an account. */
  predicate AllGrown(r: Relay, r': Relay, c: ConnId) {
    && r'.limits == r.limits && r'.conns.Keys == r.conns.Keys
    && (forall d | d in r.conns :: Grown(r.conns[d], r'.conns[d]))
    && (forall d | d in r.conns && d != c :: r'.conns[d].account == r.conns[d].account)
    && r'.history.bound.Keys <= r.history.bound.Keys + {c}
  }

  predicate SameBinding(r: Relay, r': Relay, c: ConnId) {
    && c in r.conns && c in r'.conns && r'.conns[c].account == r.conns[c].account
    && r'.history.bound == r.history.bound
  }

  lemma AllGrownTransitive(a: Relay, b: Relay, r: Relay, c: ConnId)
    requires AllGrown(a, b, c) && AllGrown(b, r, c)
    ensures AllGrown(a, r, c)
  {
    forall d | d in a.conns ensures Grown(a.conns[d], r.conns[d]) {
      GrownTransitive(a.conns[d], b.conns[d], r.conns[d]);
    }
  }

  lemma RespondGrows(r: Relay, c: ConnId, es: seq<Entry>)
    requires c in r.conns
    ensures AllGrown(r, Respond(r, c, es).relay, c)
    ensures SameBinding(r, Respond(r, c, es).relay, c)
  {
    PutAllGrows(r.conns[c], es, r.limits.maxPendingOutbound);
  }

  lemma PutEachGrows(conns: map<ConnId, Context>, targets: set<ConnId>, e: Entry, capacity: nat, d: ConnId)
    requires d in conns
    ensures Grown(conns[d], PutEach(conns, targets, e, capacity)[d])
    ensures PutEach(conns, targets, e, capacity)[d].account == conns[d].account
  {
    PutAllGrows(conns[d], [e], capacity);
  }

  lemma RouteGrows(r: Relay, c: ConnId, receipt: Receipt)
    requires c in r.conns
    ensures AllGrown(r, RouteMessage(r, c, receipt), c) && SameBinding(r, RouteMessage(r, c, receipt), c)
  {
    if IsConnected(r, receipt.recipient) {
      var e := Routed(receipt, |r.history.accepted|);
      forall d | d in r.conns
        ensures Grown(r.conns[d], RouteMessage(r, c, receipt).conns[d])
        ensures RouteMessage(r, c, receipt).conns[d].account == r.conns[d].account
      {
        PutEachGrows(r.conns, ConnectionsFor(r, receipt.recipient), e, r.limits.maxPendingOutbound, d);
      }
    }
  }

  lemma NotifyGrows(r: Relay, c: ConnId, code: ErrorCode)
    requires c in r.conns
    ensures AllGrown(r, Notify(r, c, code), c) && SameBinding(r, Notify(r, c, code), c)
  {
    PutAllGrows(r.conns[c], [Own(ProtocolError(code, None))], r.limits.maxPendingOutbound);
  }

  lemma DispatchGrows(r: Relay, c: ConnId, env: Envelope)
    requires c in r.conns
    ensures var o := Dispatch(r, c, env);
            && AllGrown(r, o.relay, c) && SameBinding(r, o.relay, c)
            && (o.next.AwaitToken? ==> r.conns[c].account.None?)
  {
    if env.kind.MessageSend? {
      var r1 := AfterSend(r, c, env);
      if MaySend(r.conns[c], env) {
        RouteGrows(r, c, ReceiptFor(r.conns[c].Identity(), env.recipient.value, env));
      } else {
        assert AllGrown(r, r1, c);
      }
      RespondGrows(r1, c, Owned(SendReplies(r, c, env)));
      AllGrownTransitive(r, r1, Dispatch(r, c, env).relay, c);
    } else if env.kind.AuthAuthenticate? {
      if r.conns[c].account.Some? {
        RespondGrows(r, c, [Own(ProtocolError(AlreadyAuthenticated, Some(env.messageId)))]);
      } else if env.accessToken.Unacceptable? {
        RespondGrows(r, c, [Own(ProtocolError(AuthFailed, Some(env.messageId)))]);
      }
    } else if env.kind.HeartbeatPing? {
      RespondGrows(r, c, [Own(HeartbeatPong(env.messageId))]);
    } else {
      RespondGrows(r, c, [Own(QueueStatus(env.messageId, |OfflineQueues.QueueOf(r.offline, r.conns[c].Identity())|))]);
    }
  }

  lemma HandleFrameGrows(r: Relay, c: ConnId, frame: Frame, now: Instant)
    requires c in r.conns
    ensures var o := HandleFrame(r, c, frame, now);
            && AllGrown(r, o.relay, c) && SameBinding(r, o.relay, c)
            && (o.next.AwaitToken? ==> r.conns[c].account.None?)
  {
    if frame.bytes > r.limits.maxMessageBytes {
      NotifyGrows(r, c, MessageTooLarge);
    } else {
      var ctx := r.conns[c];
      var window := RateLimiting.Tick(ctx.limiter, r.limits.windowSeconds, now);
      var counted := SetContext(r, c, ctx.(limiter := window));
      assert AllGrown(r, counted, c);
      if window.count > r.limits.maxMessagesPerWindow {
        NotifyGrows(counted, c, RateLimited);
      } else {
        match ValidateInbound(ctx.account.Some?, frame.body) {
          case Refused(error) => RespondGrows(counted, c, [Own(error)]);
          case Valid(env) => DispatchGrows(counted, c, env);
        }
      }
      AllGrownTransitive(r, counted, HandleFrame(r, c, frame, now).relay, c);
    }
  }

  lemma AuthenticationGrows(r: Relay, c: ConnId, messageId: string, resolved: Option<Account>)
    requires c in r.conns
    ensures AllGrown(r, FinishAuthentication(r, c, messageId, resolved).relay, c)
    ensures !FinishAuthentication(r, c, messageId, resolved).next.AwaitToken?
  {
    match resolved {
      case None => RespondGrows(r, c, [Own(ProtocolError(AuthFailed, Some(messageId)))]);
      case Some(account) =>
        var b := Drain(BindIdentity(r, c, account), account.username);
        assert AllGrown(r, b, c);
        var es := [Own(AuthReady(messageId, account))] + OfflineQueues.QueueOf(r.offline, account.username);
        RespondGrows(b, c, es);
        AllGrownTransitive(r, b, FinishAuthentication(r, c, messageId, resolved).relay, c);
    }
  }

  // ---------------------------------------------------------------- every event keeps it

  lemma UpdateKeepsConsistent(w: World, c: ConnId, t: Task, ctx: Context)
    requires Consistent(w) && c in w.relay.conns
    requires Stays(t) && Tracked(t, ctx)
    ensures Consistent(Update(w, c, t, ctx))
  {
  }

  /** Outcomes whose queues have only grown keep the other connections tracked. */
  lemma GrowthKeepsConsistent(w: World, c: ConnId, r: Relay, t: Task)
    requires Consistent(w) && c in w.relay.conns
    requires AllGrown(w.relay, r, c)
    requires Stays(t) && Tracked(t, r.conns[c])
    ensures Consistent(World(r, w.tasks[c := t]))
  {
    forall d | d in r.conns && d != c ensures Tracked(w.tasks[d], r.conns[d]) {
      assert Tracked(w.tasks[d], w.relay.conns[d]);
      GrownKeepsFlow(w.tasks[d], w.relay.conns[d], r.conns[d]);
    }
  }

  lemma ServingTracked(t: Task, a: Context, b: Context, phase: Phase)
    requires Tracked(t, a) && (t.phase.Serving? || t.phase.Resolving?)
    requires Grown(a, b)
    requires phase.Serving? || (phase.Resolving? && b.account.None?)
    ensures Tracked(t.(phase := phase), b)
  {
    GrownKeepsFlow(t, a, b);
  }

  lemma ClosingTracked(t: Task, ctx: Context, code: CloseCode)
    requires Tracked(t, ctx) && (t.phase.Serving? || t.phase.Resolving?)
    ensures Tracked(t.(phase := Closing(code)), ctx.(closing := true))
  {
  }

  lemma CloseKeepsConsistent(w: World, c: ConnId, code: CloseCode)
    requires Consistent(w) && c in w.tasks && c in w.relay.conns
    requires w.tasks[c].phase.Serving? || w.tasks[c].phase.Resolving?
    ensures Consistent(Close(w, c, code))
  {
    var t, ctx := w.tasks[c], w.relay.conns[c];
    assert Tracked(t, ctx);
    ClosingTracked(t, ctx, code);
    UpdateKeepsConsistent(w, c, t.(phase := Closing(code)), ctx.(closing := true));
  }

  lemma ServingKeepsConsistent(w: World, c: ConnId, r: Relay)
    requires Consistent(w) && c in w.tasks && c in w.relay.conns
    requires w.tasks[c].phase.Serving? || w.tasks[c].phase.Resolving?
    requires AllGrown(w.relay, r, c)
    ensures Consistent(World(r, w.tasks[c := w.tasks[c].(phase := Serving)]))
  {
    ServingTracked(w.tasks[c], w.relay.conns[c], r.conns[c], Serving);
    GrowthKeepsConsistent(w, c, r, w.tasks[c].(phase := Serving));
  }

  lemma ProceedKeepsConsistent(w: World, c: ConnId, o: Outcome)
    requires Consistent(w) && c in w.tasks && c in w.relay.conns
    requires w.tasks[c].phase.Serving? || w.tasks[c].phase.Resolving?
    requires AllGrown(w.relay, o.relay, c)
    requires o.next.AwaitToken? ==> o.relay.conns[c].account.None?
    ensures Consistent(Proceed(w, c, o))
  {
    var t, ctx := w.tasks[c], w.relay.conns[c];
    assert Tracked(t, ctx);
    match o.next {
      case AwaitToken(mid, token) =>
        ServingTracked(t, ctx, o.relay.conns[c], Resolving(mid, token));
        GrowthKeepsConsistent(w, c, o.relay, t.(phase := Resolving(mid, token)));
      case Continue => ServingKeepsConsistent(w, c, o.relay);
      case Stop(code) =>
        ServingKeepsConsistent(w, c, o.relay);
        CloseKeepsConsistent(World(o.relay, w.tasks[c := t.(phase := Serving)]), c, code);
    }
  }

  lemma TakeTracked(t: Task, ctx: Context)
    requires Tracked(t, ctx) && t.writer.Waiting? && ctx.pending != []
    ensures Tracked(t.(writer := Sending(ctx.pending[0])), ctx.(pending := ctx.pending[1..]))
  {
    assert ctx.pending == [ctx.pending[0]] + ctx.pending[1..];
  }

  lemma SettleTracked(t: Task, ctx: Context, result: SendResult)
    requires Tracked(t, ctx) && t.writer.Sending?
    ensures Tracked(SettledTask(t, result), Credited(ctx, TaskDones(result)))
  {
  }

  lemma StopTracked(t: Task, ctx: Context)
    requires Tracked(t, ctx) && t.phase.Closing?
    ensures Tracked(StoppedTask(t), StoppedContext(t, ctx))
  {
  }

  lemma AcceptTracked(t: Task, ctx: Context, e: Entry, capacity: nat)
    requires Tracked(t, ctx) && t.phase.Accepting?
    ensures Tracked(t.(phase := Serving, accepted := true, writer := Waiting), ctx.Put(e, capacity))
    ensures Tracked(t.(phase := Ended), ctx)
  {
    PutAllGrows(ctx, [e], capacity);
    GrownKeepsFlow(t, ctx, ctx.Put(e, capacity));
  }

  lemma OpenTracked(t: Task, ctx: Context, provisional: Identity)
    requires t == Task(Accepting, false, NotStarted, [], [], None) && ctx == NewContext(provisional)
    ensures Tracked(t, ctx) && Stays(t)
  {
  }

  lemma OpenKeepsConsistent(w: World, c: ConnId, provisional: Identity)
    requires Consistent(w) && Enabled(w, Open(c, provisional))
    ensures Consistent(Effect(w, Open(c, provisional)))
  {
    if MayRegister(w.relay, provisional) {
      var w' := Effect(w, Open(c, provisional));
      var t := Task(Accepting, false, NotStarted, [], [], None);
      assert w'.tasks == w.tasks[c := t] && w'.relay.conns == w.relay.conns[c := NewContext(provisional)];
      OpenTracked(t, NewContext(provisional), provisional);
    }
  }

  lemma FinishKeepsConsistent(w: World, c: ConnId)
    requires Consistent(w) && Enabled(w, Finish(c))
    ensures Consistent(Effect(w, Finish(c)))
  {
    assert Tracked(w.tasks[c], w.relay.conns[c]);
  }

  lemma WriterKeepsConsistent(w: World, e: Event)
    requires Consistent(w) && Enabled(w, e)
    requires e.Accept? || e.Take? || e.Settle? || e.StopWriter?
    ensures Consistent(Effect(w, e))
  {
    var c := e.c;
    var t, ctx := w.tasks[c], w.relay.conns[c];
    assert Tracked(t, ctx);
    match e {
      case Accept(_, _) => AcceptTracked(t, ctx, Own(ConnectionReady(c)), w.relay.limits.maxPendingOutbound);
      case Take(_) => TakeTracked(t, ctx);
      case Settle(_, result) => SettleTracked(t, ctx, result);
      case StopWriter(_, _) => StopTracked(t, ctx);
    }
    UpdateKeepsConsistent(w, c, Effect(w, e).tasks[c], Effect(w, e).relay.conns[c]);
  }

  lemma ReceiveKeepsConsistent(w: World, c: ConnId, frame: Frame, now: Instant)
    requires Consistent(w) && Enabled(w, Receive(c, frame, now))
    ensures Consistent(Effect(w, Receive(c, frame, now)))
  {
    HandleFrameGrows(w.relay, c, frame, now);
    ProceedKeepsConsistent(w, c, HandleFrame(w.relay, c, frame, now));
  }

  lemma ResolveKeepsConsistent(w: World, c: ConnId, resolved: Option<Account>)
    requires Consistent(w) && Enabled(w, Resolve(c, resolved))
    ensures Consistent(Effect(w, Resolve(c, resolved)))
  {
    var mid := w.tasks[c].phase.messageId;
    AuthenticationGrows(w.relay, c, mid, resolved);
    ProceedKeepsConsistent(w, c, FinishAuthentication(w.relay, c, mid, resolved));
  }

  lemma DeadlineKeepsConsistent(w: World, c: ConnId)
    requires Consistent(w) && Enabled(w, Deadline(c))
    ensures Consistent(Effect(w, Deadline(c)))
  {
    NotifyGrows(w.relay, c, if w.relay.conns[c].account.Some? then IdleTimeout else AuthRequired);
    ProceedKeepsConsistent(w, c, DeadlinePassed(w.relay, c));
  }

  lemma ApplyKeepsConsistent(w: World, e: Event)
    requires Consistent(w)
    ensures Consistent(Apply(w, e))
  {
    if Enabled(w, e) {
      match e {
        case Open(c, provisional) => OpenKeepsConsistent(w, c, provisional);
        case Receive(c, frame, now) => ReceiveKeepsConsistent(w, c, frame, now);
        case Resolve(c, resolved) => ResolveKeepsConsistent(w, c, resolved);
        case Deadline(c) => DeadlineKeepsConsistent(w, c);
        case Leave(c) => CloseKeepsConsistent(w, c, Normal);
        case Finish(c) => FinishKeepsConsistent(w, c);
        case _ => WriterKeepsConsistent(w, e);
      }
    }
  }
}
