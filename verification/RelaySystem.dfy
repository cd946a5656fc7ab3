/**
 The relay as a step system. One event is one code segment between two awaits of a connection's
 handler (`websocket_transport` with its receive loop) or of its writer task; the event loop may
 interleave the segments of different connections in any order, so a run is any sequence of events.
 */
module RelaySystem {
  import opened Prelude
  import opened RelayModel

  /** Where a connection's handler stands. */
  datatype Phase =
    | Accepting                                   // registered, waiting for the upgrade to be accepted
    | Serving                                     // waiting for a frame
    | Resolving(messageId: string, token: string) // waiting for the account service
    | Closing(code: CloseCode)                    // closing, waiting for the outbound queue to be flushed
    | Stopping                                    // writer cancelled, waiting for it to end
    | Ended

  datatype WriterEnd = Cancelled | Disconnected | Crashed

  /** Where a connection's writer task stands. */
  datatype Writer = NotStarted | Waiting | Sending(e: Entry) | Stopped(how: WriterEnd)

  /** `written`, `lost` and `left` are bookkeeping: what the writer has sent or failed to send, and the
      connection's record as it was when it was unregistered. */
  datatype Task = Task(
    phase: Phase, accepted: bool, writer: Writer, written: seq<Entry>, lost: seq<Entry>, left: Option<Context>)

  datatype World = World(relay: Relay, tasks: map<ConnId, Task>)

  /** `send_json` returns, raises one of the two exceptions the writer handles, or raises another. */
  datatype SendResult = Sent | Raised | RaisedOther

  datatype Event =
    | Open(c: ConnId, provisional: Identity)
    | Accept(c: ConnId, ok: bool)
    | Receive(c: ConnId, frame: Frame, now: Instant)
    | Resolve(c: ConnId, resolved: Option<Account>)
    | Deadline(c: ConnId)
    | Leave(c: ConnId)              // disconnect, cancellation or any exception out of the receive loop
    | Take(c: ConnId)               // the writer gets the oldest pending message
    | Settle(c: ConnId, result: SendResult)
    | StopWriter(c: ConnId, timedOut: bool)
    | Finish(c: ConnId)

  function Start(limits: Limits): World {
    World(Empty(limits), map[])
  }

  predicate Enabled(w: World, e: Event) {
    if e.Open? then e.c !in w.tasks   // a fresh uuid
    else
      && e.c in w.tasks && e.c in w.relay.conns
      && var t := w.tasks[e.c];
      match e
      case Accept(_, _) => t.phase.Accepting?
      case Receive(_, _, _) => t.phase.Serving?
      case Resolve(_, _) => t.phase.Resolving?
      case Deadline(_) => t.phase.Serving?
      case Leave(_) => t.phase.Serving? || t.phase.Resolving?
      case Take(_) => t.writer.Waiting? && w.relay.conns[e.c].pending != []
      case Settle(_, _) => t.writer.Sending?
      case StopWriter(_, timedOut) => t.phase.Closing? && (timedOut || w.relay.conns[e.c].unfinished == 0)
      case Finish(_) => t.phase.Stopping?
  }

  /** One connection's task and context change. */
  function Update(w: World, c: ConnId, t: Task, ctx: Context): World {
    World(SetContext(w.relay, c, ctx), w.tasks[c := t])
  }

  /** Out of the receive loop: no message is taken any more. */
  function Close(w: World, c: ConnId, code: CloseCode): World
    requires c in w.tasks && c in w.relay.conns
  {
    Update(w, c, w.tasks[c].(phase := Closing(code)), w.relay.conns[c].(closing := true))
  }

  /** Back in the receive loop, waiting for the token's resolution, or out of it and closing. */
  function Proceed(w: World, c: ConnId, o: Outcome): World
    requires c in w.tasks && c in o.relay.conns
  {
    var serving := World(o.relay, w.tasks[c := w.tasks[c].(phase := Serving)]);
    match o.next
    case Continue => serving
    case AwaitToken(mid, token) => World(o.relay, w.tasks[c := w.tasks[c].(phase := Resolving(mid, token))])
    case Stop(code) => Close(serving, c, code)
  }

  /** `n` calls of `task_done`; the ValueError of a call too many is suppressed. */
  function Credited(ctx: Context, n: nat): Context {
    ctx.(unfinished := if ctx.unfinished > n then ctx.unfinished - n else 0)
  }

  /** A handled exception counts the message off twice, in its `except` and in `finally`. */
  function TaskDones(result: SendResult): nat {
    if result.Raised? then 2 else 1
  }

  function SettledTask(t: Task, result: SendResult): Task
    requires t.writer.Sending?
  {
    match result
    case Sent => t.(writer := Waiting, written := t.written + [t.writer.e])
    case Raised => t.(writer := Stopped(Disconnected), lost := t.lost + [t.writer.e])
    case RaisedOther => t.(writer := Stopped(Crashed), lost := t.lost + [t.writer.e])
  }

  /** Cancelling the writer loses the message it holds; `finally` counts it off. */
  function StoppedTask(t: Task): Task {
    match t.writer
    case Sending(e) => t.(phase := Stopping, writer := Stopped(Cancelled), lost := t.lost + [e])
    case Stopped(_) => t.(phase := Stopping)
    case _ => t.(phase := Stopping, writer := Stopped(Cancelled))
  }

  function StoppedContext(t: Task, ctx: Context): Context {
    if t.writer.Sending? then Credited(ctx, 1) else ctx
  }

  function Effect(w: World, e: Event): World
    requires Enabled(w, e)
  {
    var c := e.c;
    if e.Open? then
      if MayRegister(w.relay, e.provisional)
      then World(Register(w.relay, c, e.provisional), w.tasks[c := Task(Accepting, false, NotStarted, [], [], None)])
      else w
    else
      var t, ctx := w.tasks[c], w.relay.conns[c];
      match e
      case Accept(_, ok) =>
        if ok then
          Update(w, c, t.(phase := Serving, accepted := true, writer := Waiting),
                 ctx.Put(Own(ConnectionReady(c)), w.relay.limits.maxPendingOutbound))
        else Update(w, c, t.(phase := Ended), ctx)
      case Receive(_, frame, now) => Proceed(w, c, HandleFrame(w.relay, c, frame, now))
      case Resolve(_, resolved) => Proceed(w, c, FinishAuthentication(w.relay, c, t.phase.messageId, resolved))
      case Deadline(_) => Proceed(w, c, DeadlinePassed(w.relay, c))
      case Leave(_) => Close(w, c, Normal)
      case Take(_) => Update(w, c, t.(writer := Sending(ctx.pending[0])), ctx.(pending := ctx.pending[1..]))
      case Settle(_, result) => Update(w, c, SettledTask(t, result), Credited(ctx, TaskDones(result)))
      case StopWriter(_, _) => Update(w, c, StoppedTask(t), StoppedContext(t, ctx))
      case Finish(_) =>
        // Awaiting a writer that died of an unhandled exception re-raises it before the unregistration.
        if t.writer == Stopped(Crashed) then World(w.relay, w.tasks[c := t.(phase := Ended)])
        else World(Unregister(w.relay, c), w.tasks[c := t.(phase := Ended, left := Some(ctx))])
  }

  /** An event that is not enabled does not happen. */
  function Apply(w: World, e: Event): World {
    if Enabled(w, e) then Effect(w, e) else w
  }

  function Exec(w: World, events: seq<Event>): World {
    if events == [] then w else Apply(Exec(w, events[..|events| - 1]), events[|events| - 1])
  }
}
