/** What becomes of a frame: the size and rate limits, the checks and the replies, case by case; and how
    many frames of a connection can have an effect in a while. */
module RelayFrames {
  import opened Prelude
  import opened RelayModel
  import opened RelaySystem
  import opened RelayInvariants
  import opened RelayRuns
  import OfflineQueues
  import RateBounds
  import RateLimiting
  import RelayProtocol
  import RelayTasks
  import RelayTheorems

  /** Only the connection's own record differs, and its log has gained these messages, as far as the
      queue has room for them. */
  ghost predicate AnswersWith(r: Relay, r': Relay, c: ConnId, replies: seq<Message>) {
    && c in r.conns && c in r'.conns && r' == SetContext(r, c, r'.conns[c])
    && (r.conns[c].closing ==> r'.conns[c].log == r.conns[c].log)
    && (!r.conns[c].closing ==>
          var room := if |r.conns[c].pending| <= r.limits.maxPendingOutbound
                      then r.limits.maxPendingOutbound - |r.conns[c].pending| else 0;
          var n := if |replies| <= room then |replies| else room;
          && |r'.conns[c].log| == |r.conns[c].log| + n && r.conns[c].log <= r'.conns[c].log
          && forall i | 0 <= i < n :: r'.conns[c].log[|r.conns[c].log| + i] == Own(replies[i]))
    && r'.conns[c].account == r.conns[c].account && r'.conns[c].closing == r.conns[c].closing
    && r'.conns[c].provisional == r.conns[c].provisional && r'.conns[c].boundAt == r.conns[c].boundAt
  }

  lemma RespondAnswers(r: Relay, c: ConnId, es: seq<Entry>, replies: seq<Message>)
    requires c in r.conns && r.limits.Positive() && |es| == |replies|
    requires forall i | 0 <= i < |es| :: es[i] == Own(replies[i])
    ensures AnswersWith(r, Respond(r, c, es).relay, c, replies)
    ensures !r.conns[c].closing ==>
              Respond(r, c, es).next
              == if |r.conns[c].pending| + |replies| <= r.limits.maxPendingOutbound || replies == []
                 then Continue else Stop(PolicyViolation)
  {
  }

  /** The frame is the (max + 1)-th or a later one of its window. */
  predicate OverRate(r: Relay, c: ConnId, now: Instant)
    requires c in r.conns
  {
    && now - r.conns[c].limiter.startedAt < r.limits.windowSeconds
    && r.conns[c].limiter.count >= r.limits.maxMessagesPerWindow
  }

  /** A frame that is too large is answered so and counts for nothing. */
  lemma TooLargeIsRefused(r: Relay, c: ConnId, frame: Frame, now: Instant)
    requires c in r.conns && r.limits.Positive() && frame.bytes > r.limits.maxMessageBytes
    ensures var o := HandleFrame(r, c, frame, now);
            && AnswersWith(r, o.relay, c, [ProtocolError(MessageTooLarge, None)]) && o.next == Continue
            && o.relay.conns[c].limiter == r.conns[c].limiter
  {
    RespondAnswers(r, c, [Own(ProtocolError(MessageTooLarge, None))], [ProtocolError(MessageTooLarge, None)]);
  }

  /** A frame over the rate is counted and answered so, and has no other effect. */
  lemma OverRateIsRefused(r: Relay, c: ConnId, frame: Frame, now: Instant)
    requires c in r.conns && r.limits.Positive() && frame.bytes <= r.limits.maxMessageBytes && OverRate(r, c, now)
    ensures var o := HandleFrame(r, c, frame, now);
            && AnswersWith(r, o.relay, c, [ProtocolError(RateLimited, None)]) && o.next == Continue
            && o.relay.conns[c].limiter
               == RateLimiting.Window(r.conns[c].limiter.startedAt, r.conns[c].limiter.count + 1)
  {
    var ctx := r.conns[c];
    var counted := SetContext(r, c, ctx.(limiter := RateLimiting.Window(ctx.limiter.startedAt, ctx.limiter.count + 1)));
    RespondAnswers(counted, c, [Own(ProtocolError(RateLimited, None))], [ProtocolError(RateLimited, None)]);
    var o := HandleFrame(r, c, frame, now);
    assert o.relay == SetContext(r, c, o.relay.conns[c]);
  }

  // ---------------------------------------------------------------- the checks

  /** The error a frame's body is refused with: what is checked first decides. */
  ghost predicate RefusedWith(authenticated: bool, body: Body, code: ErrorCode, about: Option<string>) {
    var v := ValidateInbound(authenticated, body);
    v.Refused? && v.error == ProtocolError(code, about)
  }

  /** Each check of a frame, in their order, with its error. */
  lemma ChecksExactly(authenticated: bool, body: Body)
    ensures body.NotJson? <==> RefusedWith(authenticated, body, InvalidJson, None)
    ensures body.NotAnObject? ==> RefusedWith(authenticated, body, SchemaValidationFailed, None)
    ensures body.Object? ==>
              var known := body.wireType.Sendable?;
              var open := authenticated || (known && body.wireType.kind in {AuthAuthenticate, HeartbeatPing});
              && (!body.versionOk <==> RefusedWith(authenticated, body, UnsupportedProtocolVersion, body.about))
              && (body.versionOk && !known <==> RefusedWith(authenticated, body, UnknownMessageType, body.about))
              && (body.versionOk && known && !open <==> RefusedWith(authenticated, body, AuthRequired, body.about))
              && (body.versionOk && known && open && body.fields.None? <==>
                    RefusedWith(authenticated, body, SchemaValidationFailed, body.about))
    ensures ValidateInbound(authenticated, body).Valid? <==>
              && body.Object? && body.versionOk && body.wireType.Sendable? && body.fields.Some?
              && (authenticated || body.wireType.kind in {AuthAuthenticate, HeartbeatPing})
  {
  }

  /** A valid frame is read as it is. */
  lemma ReadsExactly(authenticated: bool, body: Body)
    requires ValidateInbound(authenticated, body).Valid?
    ensures var env := ValidateInbound(authenticated, body).envelope;
            var f := body.fields.value;
            && body.wireType == Sendable(env.kind) && env.messageId == f.messageId && env.sender == f.sender
            && env.recipient == f.recipient && env.timestamp == f.timestamp && env.payload == f.payload
            && env.accessToken == f.accessToken
  {
  }

  // ---------------------------------------------------------------- the replies

  /** The limiter's window when it has counted one more frame. */
  function Counted(r: Relay, c: ConnId, now: Instant): Relay
    requires c in r.conns
  {
    var w := r.conns[c].limiter;
    SetContext(r, c, r.conns[c].(limiter :=
      if now - w.startedAt >= r.limits.windowSeconds then RateLimiting.Window(now, 1)
      else RateLimiting.Window(w.startedAt, w.count + 1)))
  }

  /** A frame that is neither too large nor over the rate is counted, checked and dispatched. */
  lemma OthersAreProcessed(r: Relay, c: ConnId, frame: Frame, now: Instant)
    requires c in r.conns && r.limits.Positive() && frame.bytes <= r.limits.maxMessageBytes && !OverRate(r, c, now)
    ensures var o := HandleFrame(r, c, frame, now);
            var v := ValidateInbound(r.conns[c].account.Some?, frame.body);
            && (v.Valid? ==> o == Dispatch(Counted(r, c, now), c, v.envelope))
            && (v.Refused? ==> o == Respond(Counted(r, c, now), c, [Own(v.error)])
                               && AnswersWith(Counted(r, c, now), o.relay, c, [v.error]))
  {
    var v := ValidateInbound(r.conns[c].account.Some?, frame.body);
    if v.Refused? {
      RespondAnswers(Counted(r, c, now), c, [Own(v.error)], [v.error]);
    }
  }

  /** What a valid frame other than a message is answered with. */
  function Answer(r: Relay, c: ConnId, env: Envelope): Message
    requires c in r.conns && !env.kind.MessageSend?
  {
    match env.kind
    case HeartbeatPing => HeartbeatPong(env.messageId)
    case QueueStatusRequest =>
      var ctx := r.conns[c];
      var identity := if ctx.account.Some? then ctx.account.value.username else ctx.provisional;
      QueueStatus(env.messageId, |OfflineQueues.QueueOf(r.offline, identity)|)
    case AuthAuthenticate =>
      ProtocolError(if r.conns[c].account.Some? then AlreadyAuthenticated else AuthFailed, Some(env.messageId))
  }

  /** An unauthenticated connection that presents a token waits for its account, and nothing else
      happens; every other valid frame that is no message gets its one answer. */
  lemma AnswersExactly(r: Relay, c: ConnId, env: Envelope)
    requires c in r.conns && r.limits.Positive() && !env.kind.MessageSend?
    ensures var o := Dispatch(r, c, env);
            if env.kind.AuthAuthenticate? && r.conns[c].account.None? && env.accessToken.Presented?
            then o.relay == r && o.next == AwaitToken(env.messageId, env.accessToken.token)
            else AnswersWith(r, o.relay, c, [Answer(r, c, env)]) && !o.next.AwaitToken?
  {
    RespondAnswers(r, c, [Own(Answer(r, c, env))], [Answer(r, c, env)]);
  }

  /** A message of a wrong sender is answered with an error and a rejection, and one without recipient
      with an error. */
  lemma UnroutableSendsAnswer(r: Relay, c: ConnId, env: Envelope)
    requires c in r.conns && r.limits.Positive() && env.kind.MessageSend?
    ensures var o := Dispatch(r, c, env);
            var own := env.sender == r.conns[c].Identity();
            && (!own ==> AnswersWith(r, o.relay, c, [ProtocolError(SenderMismatch, Some(env.messageId)),
                                                     DeliveryAck(env.messageId, Rejected)]))
            && (own && env.recipient.None? ==>
                  AnswersWith(r, o.relay, c, [ProtocolError(InvalidRecipient, Some(env.messageId))]))
  {
    var mismatch, rejected := ProtocolError(SenderMismatch, Some(env.messageId)), DeliveryAck(env.messageId, Rejected);
    if env.sender != r.conns[c].Identity() {
      RespondAnswers(r, c, Owned(SendReplies(r, c, env)), [mismatch, rejected]);
    } else if env.recipient.None? {
      RespondAnswers(r, c, Owned(SendReplies(r, c, env)), [ProtocolError(InvalidRecipient, Some(env.messageId))]);
    }
  }

  /** A token that stands for nobody is answered with an error, and the connection goes on. */
  lemma FailedAuthenticationAnswers(r: Relay, c: ConnId, messageId: string)
    requires c in r.conns && r.limits.Positive()
    ensures AnswersWith(r, FinishAuthentication(r, c, messageId, None).relay, c,
                        [ProtocolError(AuthFailed, Some(messageId))])
  {
    var reply := ProtocolError(AuthFailed, Some(messageId));
    RespondAnswers(r, c, [Own(reply)], [reply]);
  }

  /** When a deadline passes, an authenticated connection is told it was idle, another that it has to
      authenticate, and the loop ends with the code for it. */
  lemma DeadlineTells(r: Relay, c: ConnId)
    requires c in r.conns && r.limits.Positive()
    ensures var o := DeadlinePassed(r, c);
            if r.conns[c].account.Some?
            then AnswersWith(r, o.relay, c, [ProtocolError(IdleTimeout, None)]) && o.next == Stop(IdleTimedOut)
            else AnswersWith(r, o.relay, c, [ProtocolError(AuthRequired, None)]) && o.next == Stop(AuthDeadline)
  {
    RespondAnswers(r, c, [Own(ProtocolError(IdleTimeout, None))], [ProtocolError(IdleTimeout, None)]);
    RespondAnswers(r, c, [Own(ProtocolError(AuthRequired, None))], [ProtocolError(AuthRequired, None)]);
  }

  // ---------------------------------------------------------------- frames that have an effect

  predicate IsLimitError(e: Entry) {
    e.Own? && e.message.ProtocolError? && e.message.code in {MessageTooLarge, RateLimited}
  }

  /** The frame ends the loop, hands a token over, or gets anything else put than the two limits' errors. */
  ghost predicate Effective(r: Relay, o: Outcome, c: ConnId)
    requires c in r.conns
  {
    || o.next != Continue
    || (c in o.relay.conns
        && exists i :: |r.conns[c].log| <= i < |o.relay.conns[c].log| && !IsLimitError(o.relay.conns[c].log[i]))
  }

  lemma RespondIsEffective(r: Relay, r1: Relay, c: ConnId, es: seq<Entry>)
    requires c in r.conns && c in r1.conns && r1.limits.Positive() && !r1.conns[c].closing
    requires r.conns[c].log <= r1.conns[c].log && es != [] && forall i | 0 <= i < |es| :: !IsLimitError(es[i])
    ensures Effective(r, Respond(r1, c, es), c)
  {
    var o := Respond(r1, c, es);
    if r1.conns[c].Fitting(|es|, r1.limits.maxPendingOutbound) == |es| {
      assert o.relay.conns[c].log[|r1.conns[c].log|] == es[0];
    }
  }

  lemma DispatchIsEffective(r: Relay, c: ConnId, env: Envelope)
    requires c in r.conns && r.limits.Positive() && !r.conns[c].closing
    ensures Effective(r, Dispatch(r, c, env), c)
  {
    match env.kind {
      case MessageSend =>
        if MaySend(r.conns[c], env) {
          RelayTasks.RouteGrows(r, c, ReceiptFor(r.conns[c].Identity(), env.recipient.value, env));
        }
        RespondIsEffective(r, AfterSend(r, c, env), c, Owned(SendReplies(r, c, env)));
      case _ =>
        RespondIsEffective(r, r, c, [Own(Answer(r, c, env))]);
    }
  }

  /** A frame has an effect exactly if it is neither too large nor over the rate. */
  lemma EffectiveExactly(r: Relay, c: ConnId, frame: Frame, now: Instant)
    requires c in r.conns && r.limits.Positive() && !r.conns[c].closing
    ensures Effective(r, HandleFrame(r, c, frame, now), c) <==>
            frame.bytes <= r.limits.maxMessageBytes && !OverRate(r, c, now)
  {
    if frame.bytes > r.limits.maxMessageBytes {
      TooLargeIsRefused(r, c, frame, now);
    } else if OverRate(r, c, now) {
      OverRateIsRefused(r, c, frame, now);
    } else {
      var counted := Counted(r, c, now);
      OthersAreProcessed(r, c, frame, now);
      match ValidateInbound(r.conns[c].account.Some?, frame.body) {
        case Refused(error) => RespondIsEffective(counted, counted, c, [Own(error)]);
        case Valid(env) => DispatchIsEffective(counted, c, env);
      }
    }
  }
}
