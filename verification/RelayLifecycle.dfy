/** The beginning and the end of a connection, step by step. */
module RelayLifecycle {
  import opened Prelude
  import opened RelayModel
  import opened RelaySystem
  import opened RelayInvariants
  import opened RelayRuns
  import opened RelayTasks
  import opened RelayFrames
  import RateLimiting
  import RelayTheorems

  function Hosting(r: Relay, id: Identity): set<ConnId> {
    set d | d in r.conns && r.conns[d].Identity() == id
  }

  lemma HostingIsIndexed(r: Relay, id: Identity)
    requires Indexed(r)
    ensures Hosting(r, id) == IdsOf(r.byClient, id)
  {
    RelayTheorems.IndexedIsInverse(r);
    forall d ensures d in Hosting(r, id) <==> d in IdsOf(r.byClient, id) {
    }
  }

  lemma RoomExactly(r: Relay, provisional: Identity)
    requires Indexed(r)
    ensures MayRegister(r, provisional) <==>
              && |r.conns| < r.limits.maxTotalConnections
              && |Hosting(r, provisional)| < r.limits.maxConnectionsPerClient
  {
    HostingIsIndexed(r, provisional);
  }

  /** It is as if it had only just begun to exist: unauthenticated, with nothing put and nothing counted. */
  ghost predicate IsNew(r: Relay, c: ConnId, provisional: Identity) {
    && c in r.conns && r.conns[c].provisional == provisional && r.conns[c].account == None && !r.conns[c].closing
    && r.conns[c].log == [] && r.conns[c].pending == [] && r.conns[c].unfinished == 0
    && r.conns[c].limiter == RateLimiting.FRESH
  }

  lemma RegistersNew(r: Relay, c: ConnId, provisional: Identity)
    requires c !in r.conns
    ensures var r' := Register(r, c, provisional);
            && IsNew(r', c, provisional) && r'.offline == r.offline && r'.history == r.history && r'.limits == r.limits
            && (forall d :: d in r'.conns <==> d in r.conns || d == c)
            && (forall d | d in r.conns :: r'.conns[d] == r.conns[d])
  {
  }

  /** A connection is registered exactly while there are fewer than the total limit, and fewer than the
      per-client limit under its identity; otherwise nothing happens. */
  lemma RegistersExactly(w: World, c: ConnId, provisional: Identity)
    requires Good(w) && c !in w.tasks && c !in w.relay.conns
    ensures var r, w' := w.relay, Apply(w, Open(c, provisional));
            if |r.conns| < r.limits.maxTotalConnections && |Hosting(r, provisional)| < r.limits.maxConnectionsPerClient
            then IsNew(w'.relay, c, provisional) && c in w'.tasks && w'.tasks[c].phase == Accepting
            else w' == w
  {
    RoomExactly(w.relay, provisional);
    RegistersNew(w.relay, c, provisional);
  }

  /** Once accepted, a connection is greeted first of all, and served. */
  lemma AcceptGreets(w: World, c: ConnId)
    requires Enabled(w, Accept(c, true)) && w.relay.limits.Positive()
    ensures var w' := Apply(w, Accept(c, true));
            && AnswersWith(w.relay, w'.relay, c, [ConnectionReady(c)])
            && w'.tasks[c].phase == Serving && w'.tasks[c].accepted && w'.tasks[c].writer == Waiting
  {
    RespondAnswers(w.relay, c, [Own(ConnectionReady(c))], [ConnectionReady(c)]);
  }

  // ---------------------------------------------------------------- the token waited for

  /** The event is a frame of the connection that presents this token under this message id. */
  predicate Presents(e: Event, c: ConnId, messageId: string, token: string) {
    && e.Receive? && e.c == c && e.frame.body.Object? && e.frame.body.fields.Some?
    && e.frame.body.wireType == Sendable(AuthAuthenticate)
    && e.frame.body.fields.value.messageId == messageId
    && e.frame.body.fields.value.accessToken == Presented(token)
  }

  lemma OnlyFramesPresent(w: World, e: Event, c: ConnId)
    requires c in Apply(w, e).tasks && Apply(w, e).tasks[c].phase.Resolving?
    requires !(c in w.tasks && w.tasks[c].phase == Apply(w, e).tasks[c].phase)
    ensures Enabled(w, e) && w.tasks[c].phase == Serving
    ensures Presents(e, c, Apply(w, e).tasks[c].phase.messageId, Apply(w, e).tasks[c].phase.token)
  {
  }

  predicate IsAt(w: World, c: ConnId, phase: Phase) {
    c in w.tasks && w.tasks[c].phase == phase
  }

  /** At step `k` the connection, being served, presents the token, and has waited for its account since. */
  ghost predicate WaitsSince(w: World, events: seq<Event>, k: nat, c: ConnId, messageId: string, token: string) {
    && k < |events| && IsAt(Exec(w, events[..k]), c, Serving) && Presents(events[k], c, messageId, token)
    && forall j | k < j <= |events| :: IsAt(Exec(w, events[..j]), c, Resolving(messageId, token))
  }

  lemma WaitsOn(w: World, events: seq<Event>, k: nat, c: ConnId, messageId: string, token: string)
    requires events != [] && WaitsSince(w, events[..|events| - 1], k, c, messageId, token)
    requires IsAt(Exec(w, events), c, Resolving(messageId, token))
    ensures WaitsSince(w, events, k, c, messageId, token)
  {
    var n := |events| - 1;
    assert events[..n][..k] == events[..k] && events[..|events|] == events;
    forall j | k < j <= |events| ensures IsAt(Exec(w, events[..j]), c, Resolving(messageId, token)) {
      if j <= n {
        assert events[..n][..j] == events[..j];
      }
    }
  }

  /** A connection that waits for a token's account has presented this token, under the message id its
      answer will name, in the frame since which it has been waiting. */
  lemma {:induction false} TokenWasPresented(w: World, events: seq<Event>, c: ConnId, messageId: string, token: string)
    requires c !in w.tasks && IsAt(Exec(w, events), c, Resolving(messageId, token))
    ensures exists k: nat :: WaitsSince(w, events, k, c, messageId, token)
  {
    var n := |events| - 1;
    var before := Exec(w, events[..n]);
    if IsAt(before, c, Resolving(messageId, token)) {
      TokenWasPresented(w, events[..n], c, messageId, token);
      var k: nat :| WaitsSince(w, events[..n], k, c, messageId, token);
      WaitsOn(w, events, k, c, messageId, token);
    } else {
      OnlyFramesPresent(before, events[n], c);
      assert events[..n + 1] == events;
      assert WaitsSince(w, events, n, c, messageId, token);
    }
  }

  /** The end of the loop closes the connection, with the code it ended with; a disconnect's is NORMAL. */
  lemma LoopEnds(w: World, e: Event)
    requires Enabled(w, e) && (e.Leave? || e.Deadline?) && w.relay.limits.Positive()
    ensures var w' := Apply(w, e);
            && e.c in w'.relay.conns && w'.relay.conns[e.c].closing
            && w'.tasks[e.c].phase == Closing(
                 if e.Leave? then Normal else if w.relay.conns[e.c].account.Some? then IdleTimedOut else AuthDeadline)
  {
  }

  /** The queue's counter after a send: what is left pending, but one less when the send has failed with a
      handled exception, which is counted off twice. So a flush may end with a message still pending. */
  lemma FailedSendUndercounts(w: World, c: ConnId, result: SendResult)
    requires Good(w) && Enabled(w, Settle(c, result))
    ensures var ctx := Apply(w, Settle(c, result)).relay.conns[c];
            && ctx.pending == w.relay.conns[c].pending && ctx.log == w.relay.conns[c].log
            && ctx.unfinished == if result.Raised? && ctx.pending != [] then |ctx.pending| - 1 else |ctx.pending|
  {
    assert Tracked(w.tasks[c], w.relay.conns[c]);
  }

  /** The writer goes on after a send that succeeded and stops after one that failed. */
  lemma WriterGoesOn(w: World, c: ConnId, result: SendResult)
    requires Enabled(w, Settle(c, result))
    ensures var t, t' := w.tasks[c], Apply(w, Settle(c, result)).tasks[c];
            && t'.phase == t.phase
            && (result.Sent? <==> t'.writer == Waiting)
            && (result.Sent? ==> t'.written == t.written + [t.writer.e] && t'.lost == t.lost)
            && (!result.Sent? ==> t'.writer.Stopped? && t'.written == t.written && t'.lost == t.lost + [t.writer.e])
  {
  }

  /** The writer takes the messages in the order they were put. */
  lemma TakesTheOldest(w: World, c: ConnId)
    requires Enabled(w, Take(c))
    ensures var ctx, w' := w.relay.conns[c], Apply(w, Take(c));
            && w'.tasks[c].writer == Sending(ctx.pending[0])
            && w'.relay.conns[c].pending == ctx.pending[1..] && w'.relay.conns[c].log == ctx.log
  {
  }

  /** Cancelling the writer loses the message it is sending, if any, and counts it off: the counter is then
      the number of messages pending, unless the writer had stopped before. */
  lemma CancelledLosesOne(w: World, c: ConnId, timedOut: bool)
    requires Good(w) && Enabled(w, StopWriter(c, timedOut))
    ensures var t, t', ctx := w.tasks[c], Apply(w, StopWriter(c, timedOut)).tasks[c],
              Apply(w, StopWriter(c, timedOut)).relay.conns[c];
            && t'.phase == Stopping && t'.writer.Stopped? && t'.written == t.written
            && t'.lost == (if t.writer.Sending? then t.lost + [t.writer.e] else t.lost)
            && ctx.pending == w.relay.conns[c].pending && ctx.log == w.relay.conns[c].log && ctx.closing
            && (t.writer.Stopped? ==> t'.writer == t.writer && ctx == w.relay.conns[c])
            && (!t.writer.Stopped? ==> t'.writer == Stopped(Cancelled) && ctx.unfinished == |ctx.pending|)
  {
    assert Tracked(w.tasks[c], w.relay.conns[c]);
  }

  /** The handler's end unregisters the connection, unless its writer has crashed. */
  lemma EndUnregisters(w: World, c: ConnId)
    requires Enabled(w, Finish(c))
    ensures var w' := Apply(w, Finish(c));
            && w'.tasks[c].phase == Ended && w'.tasks[c].writer == w.tasks[c].writer
            && (c in w'.relay.conns <==> w.tasks[c].writer == Stopped(Crashed))
            && (forall d | d != c :: d in w'.relay.conns <==> d in w.relay.conns)
            && (forall d | d in w'.relay.conns :: w'.relay.conns[d] == w.relay.conns[d])
            && w'.relay.offline == w.relay.offline && w'.relay.history == w.relay.history
  {
  }

  /** Binding an account changes whose connection it is, and nothing else of it. */
  lemma BindsExactly(r: Relay, c: ConnId, account: Account)
    requires c in r.conns
    ensures var r' := BindIdentity(r, c, account);
            && r'.conns.Keys == r.conns.Keys && r'.offline == r.offline && r'.limits == r.limits
            && (forall d | d in r.conns && d != c :: r'.conns[d] == r.conns[d])
            && r'.conns[c].account == Some(account) && r'.conns[c].boundAt == |r.conns[c].log|
            && r'.conns[c].log == r.conns[c].log && r'.conns[c].pending == r.conns[c].pending
            && r'.conns[c].closing == r.conns[c].closing && r'.conns[c].limiter == r.conns[c].limiter
            && r'.conns[c].unfinished == r.conns[c].unfinished && r'.conns[c].provisional == r.conns[c].provisional
            && r'.history.accepted == r.history.accepted && r'.history.drained == r.history.drained
            && r'.history.bound == r.history.bound[c := account]
  {
  }

  /** A connection that is unregistered is gone, and nobody else is. */
  lemma UnregistersExactly(r: Relay, c: ConnId)
    ensures var r' := Unregister(r, c);
            && (forall d :: d in r'.conns <==> d in r.conns && d != c)
            && (forall d | d in r'.conns :: r'.conns[d] == r.conns[d])
            && r'.offline == r.offline && r'.history == r.history && r'.limits == r.limits
  {
  }
}
