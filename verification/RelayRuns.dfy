/** Every event keeps every invariant, so every run does. */
module RelayRuns {
  import opened Prelude
  import opened RelayModel
  import opened RelaySystem
  import opened RelayInvariants
  import opened RelayRouting
  import opened RelayTasks
  import opened RelayBounds
  import OfflineQueues
  import RateLimiting

  ghost predicate Good(w: World) {
    Sound(w.relay) && Bounded(w.relay) && Consistent(w)
  }

  // ---------------------------------------------------------------- the receive loop

  lemma SendKeepsSound(r: Relay, c: ConnId, env: Envelope)
    requires Sound(r) && c in r.conns && r.conns[c].account.Some? && env.kind.MessageSend?
    ensures Sound(Dispatch(r, c, env).relay)
  {
    var r1 := AfterSend(r, c, env);
    if MaySend(r.conns[c], env) {
      RoutingKeepsSound(r, c, ReceiptFor(r.conns[c].Identity(), env.recipient.value, env));
    }
    ReplyKeepsSound(r1, c, Owned(SendReplies(r, c, env)));
  }

  lemma DispatchKeepsSound(r: Relay, c: ConnId, env: Envelope)
    requires Sound(r) && c in r.conns && (r.conns[c].account.Some? || OpenToAll(env.kind))
    ensures Sound(Dispatch(r, c, env).relay)
  {
    match env.kind {
      case AuthAuthenticate =>
        ReplyKeepsSound(r, c, [Own(ProtocolError(AlreadyAuthenticated, Some(env.messageId)))]);
        ReplyKeepsSound(r, c, [Own(ProtocolError(AuthFailed, Some(env.messageId)))]);
      case HeartbeatPing => ReplyKeepsSound(r, c, [Own(HeartbeatPong(env.messageId))]);
      case QueueStatusRequest =>
        ReplyKeepsSound(r, c,
              [Own(QueueStatus(env.messageId, |OfflineQueues.QueueOf(r.offline, r.conns[c].Identity())|))]);
      case MessageSend => SendKeepsSound(r, c, env);
    }
  }

  lemma HandleFrameKeepsSound(r: Relay, c: ConnId, frame: Frame, now: Instant)
    requires Sound(r) && c in r.conns
    ensures Sound(HandleFrame(r, c, frame, now).relay)
  {
    var ctx := r.conns[c];
    if frame.bytes > r.limits.maxMessageBytes {
      ReplyKeepsSound(r, c, [Own(ProtocolError(MessageTooLarge, None))]);
    } else {
      var window := RateLimiting.Tick(ctx.limiter, r.limits.windowSeconds, now);
      var counted := SetContext(r, c, ctx.(limiter := window));
      QuietKeepsSound(r, c, ctx.(limiter := window));
      if window.count > r.limits.maxMessagesPerWindow {
        ReplyKeepsSound(counted, c, [Own(ProtocolError(RateLimited, None))]);
      } else {
        match ValidateInbound(ctx.account.Some?, frame.body) {
          case Refused(error) => ReplyKeepsSound(counted, c, [Own(error)]);
          case Valid(env) => DispatchKeepsSound(counted, c, env);
        }
      }
    }
  }

  // ---------------------------------------------------------------- events

  lemma ProceedKeepsSound(w: World, c: ConnId, o: Outcome)
    requires Sound(o.relay) && c in w.tasks && c in o.relay.conns
    ensures Sound(Proceed(w, c, o).relay)
  {
    if o.next.Stop? {
      QuietKeepsSound(o.relay, c, o.relay.conns[c].(closing := true));
    }
  }

  lemma ProceedKeepsBounded(w: World, c: ConnId, o: Outcome)
    requires Bounded(o.relay) && c in w.tasks && c in o.relay.conns
    ensures Bounded(Proceed(w, c, o).relay)
  {
    if o.next.Stop? {
      SetStaysWithin(o.relay, c, o.relay.conns[c].(closing := true));
    }
  }

  /** What the writer, the acceptance and the end of the receive loop do to one context. */
  lemma OwnChange(w: World, e: Event)
    requires Bounded(w.relay) && w.relay.limits.Positive() && Enabled(w, e)
    requires e.Accept? || e.Take? || e.Settle? || e.StopWriter? || e.Leave?
    ensures e.c in Effect(w, e).relay.conns
    ensures Effect(w, e).relay == SetContext(w.relay, e.c, Effect(w, e).relay.conns[e.c])
    ensures Quiet(w.relay.conns[e.c], Effect(w, e).relay.conns[e.c])
    ensures |Effect(w, e).relay.conns[e.c].pending| <= w.relay.limits.maxPendingOutbound
  {
    var ready := [Own(ConnectionReady(e.c))];
    PutAllIsQuiet(w.relay.conns[e.c], ready, w.relay.limits.maxPendingOutbound);
    PutAllStaysWithin(w.relay.conns[e.c], ready, w.relay.limits.maxPendingOutbound);
  }

  lemma ReceiveKeepsSound(w: World, c: ConnId, frame: Frame, now: Instant)
    requires Sound(w.relay) && Enabled(w, Receive(c, frame, now))
    ensures Sound(Effect(w, Receive(c, frame, now)).relay)
  {
    HandleFrameKeepsSound(w.relay, c, frame, now);
    ProceedKeepsSound(w, c, HandleFrame(w.relay, c, frame, now));
  }

  lemma ReceiveKeepsBounded(w: World, c: ConnId, frame: Frame, now: Instant)
    requires Bounded(w.relay) && w.relay.limits.Positive() && Enabled(w, Receive(c, frame, now))
    ensures Bounded(Effect(w, Receive(c, frame, now)).relay)
  {
    HandleFrameKeepsBounded(w.relay, c, frame, now);
    ProceedKeepsBounded(w, c, HandleFrame(w.relay, c, frame, now));
  }

  lemma ResolveKeepsSound(w: World, c: ConnId, resolved: Option<Account>)
    requires Sound(w.relay) && Consistent(w) && Enabled(w, Resolve(c, resolved))
    ensures Sound(Effect(w, Resolve(c, resolved)).relay)
  {
    assert Tracked(w.tasks[c], w.relay.conns[c]);
    AuthenticationKeepsSound(w.relay, c, w.tasks[c].phase.messageId, resolved);
    ProceedKeepsSound(w, c, FinishAuthentication(w.relay, c, w.tasks[c].phase.messageId, resolved));
  }

  lemma ResolveKeepsBounded(w: World, c: ConnId, resolved: Option<Account>)
    requires Bounded(w.relay) && w.relay.limits.Positive() && Enabled(w, Resolve(c, resolved))
    ensures Bounded(Effect(w, Resolve(c, resolved)).relay)
  {
    AuthenticationKeepsBounded(w.relay, c, w.tasks[c].phase.messageId, resolved);
    ProceedKeepsBounded(w, c, FinishAuthentication(w.relay, c, w.tasks[c].phase.messageId, resolved));
  }

  lemma DeadlineKeepsSound(w: World, c: ConnId)
    requires Sound(w.relay) && Enabled(w, Deadline(c))
    ensures Sound(Effect(w, Deadline(c)).relay)
  {
    var code := if w.relay.conns[c].account.Some? then IdleTimeout else AuthRequired;
    ReplyKeepsSound(w.relay, c, [Own(ProtocolError(code, None))]);
    ProceedKeepsSound(w, c, DeadlinePassed(w.relay, c));
  }

  lemma DeadlineKeepsBounded(w: World, c: ConnId)
    requires Bounded(w.relay) && w.relay.limits.Positive() && Enabled(w, Deadline(c))
    ensures Bounded(Effect(w, Deadline(c)).relay)
  {
    var code := if w.relay.conns[c].account.Some? then IdleTimeout else AuthRequired;
    RespondKeepsBounded(w.relay, c, [Own(ProtocolError(code, None))]);
    ProceedKeepsBounded(w, c, DeadlinePassed(w.relay, c));
  }

  lemma EffectKeepsSound(w: World, e: Event)
    requires Good(w) && Enabled(w, e)
    ensures Sound(Effect(w, e).relay)
  {
    match e {
      case Open(c, provisional) => RegisterKeepsSound(w.relay, c, provisional);
      case Receive(c, frame, now) => ReceiveKeepsSound(w, c, frame, now);
      case Resolve(c, resolved) => ResolveKeepsSound(w, c, resolved);
      case Deadline(c) => DeadlineKeepsSound(w, c);
      case Finish(c) => UnregisterKeepsSound(w.relay, c);
      case _ =>
        OwnChange(w, e);
        QuietKeepsSound(w.relay, e.c, Effect(w, e).relay.conns[e.c]);
    }
  }

  lemma EffectKeepsBounded(w: World, e: Event)
    requires Good(w) && Enabled(w, e)
    ensures Bounded(Effect(w, e).relay)
  {
    match e {
      case Open(c, provisional) =>
        if MayRegister(w.relay, provisional) {
          RegisterKeepsBounded(w.relay, c, provisional);
        }
      case Receive(c, frame, now) => ReceiveKeepsBounded(w, c, frame, now);
      case Resolve(c, resolved) => ResolveKeepsBounded(w, c, resolved);
      case Deadline(c) => DeadlineKeepsBounded(w, c);
      case Finish(c) => UnregisterKeepsBounded(w.relay, c);
      case _ =>
        OwnChange(w, e);
        SetStaysWithin(w.relay, e.c, Effect(w, e).relay.conns[e.c]);
    }
  }

  lemma ApplyKeepsGood(w: World, e: Event)
    requires Good(w)
    ensures Good(Apply(w, e))
  {
    ApplyKeepsConsistent(w, e);
    if Enabled(w, e) {
      EffectKeepsSound(w, e);
      EffectKeepsBounded(w, e);
    }
  }

  lemma StartIsGood(limits: Limits)
    requires limits.Positive()
    ensures Good(Start(limits))
  {
  }

  /** Every state of every run is good. */
  lemma {:induction false} Always(limits: Limits, events: seq<Event>)
    requires limits.Positive()
    ensures Good(Exec(Start(limits), events))
  {
    if events == [] {
      StartIsGood(limits);
    } else {
      Always(limits, events[..|events| - 1]);
      ApplyKeepsGood(Exec(Start(limits), events[..|events| - 1]), events[|events| - 1]);
    }
  }

  /** A state some run leads to, under limits as the environment gives them. */
  ghost predicate Reachable(w: World) {
    exists limits: Limits, events :: limits.Positive() && w == Exec(Start(limits), events)
  }

  lemma ReachableIsGood(w: World)
    requires Reachable(w)
    ensures Good(w)
  {
    var limits: Limits, events :| limits.Positive() && w == Exec(Start(limits), events);
    Always(limits, events);
  }

  lemma ReachableNext(w: World, e: Event)
    requires Reachable(w)
    ensures Reachable(Apply(w, e))
  {
    var limits: Limits, events :| limits.Positive() && w == Exec(Start(limits), events);
    assert (events + [e])[..|events|] == events;
    assert Apply(w, e) == Exec(Start(limits), events + [e]);
  }
}
