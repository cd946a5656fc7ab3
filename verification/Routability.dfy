/** Schema-valid frames against stored usernames: an account whose username is not a routing
    identifier takes part in no conversation. */
module Routability {
  import opened Prelude
  import opened RelayModel
  import opened RelaySystem
  import opened RelayRuns
  import Identifiers
  import RelayTheorems

  /** The schema admits routing identifiers only, as sender and as recipient. */
  predicate WellFormed(frame: Frame) {
    frame.body.Object? && frame.body.fields.Some? ==>
      var f := frame.body.fields.value;
      Identifiers.Routable(f.sender) && (f.recipient.Some? ==> Identifiers.Routable(f.recipient.value))
  }

  predicate SchemaHolds(events: seq<Event>) {
    forall i | 0 <= i < |events| && events[i].Receive? :: WellFormed(events[i].frame)
  }

  predicate AllRoutable(accepted: seq<Accepted>) {
    forall i | 0 <= i < |accepted| ::
      Identifiers.Routable(accepted[i].receipt.sender) && Identifiers.Routable(accepted[i].receipt.recipient)
  }

  lemma FrameKeepsRoutable(r: Relay, c: ConnId, frame: Frame, now: Instant)
    requires c in r.conns && WellFormed(frame) && AllRoutable(r.history.accepted)
    ensures AllRoutable(HandleFrame(r, c, frame, now).relay.history.accepted)
  {
  }

  lemma StepKeepsRoutable(w: World, e: Event)
    requires (e.Receive? ==> WellFormed(e.frame)) && AllRoutable(w.relay.history.accepted)
    ensures AllRoutable(Apply(w, e).relay.history.accepted)
  {
    if Enabled(w, e) && e.Receive? {
      FrameKeepsRoutable(w.relay, e.c, e.frame, e.now);
    }
  }

  lemma {:induction false} RunsKeepRoutable(w: World, events: seq<Event>)
    requires SchemaHolds(events) && AllRoutable(w.relay.history.accepted)
    ensures AllRoutable(Exec(w, events).relay.history.accepted)
  {
    if events == [] {
    } else {
      var n := |events| - 1;
      RunsKeepRoutable(w, events[..n]);
      StepKeepsRoutable(Exec(w, events[..n]), events[n]);
    }
  }

  /** A state that some run of schema-valid frames leads to. */
  ghost predicate Reachable(w: World) {
    exists limits: Limits, events :: limits.Positive() && SchemaHolds(events) && w == Exec(Start(limits), events)
  }

  lemma ReachableIsRoutable(w: World)
    requires Reachable(w)
    ensures AllRoutable(w.relay.history.accepted) && RelayRuns.Reachable(w)
  {
    var limits: Limits, events :| limits.Positive() && SchemaHolds(events) && w == Exec(Start(limits), events);
    RunsKeepRoutable(Start(limits), events);
  }

  lemma NoReceiptSinceBound(ctx: Context, accepted: seq<Accepted>)
    requires ctx.account.Some? && !Identifiers.Routable(ctx.account.value.username) && AllRoutable(accepted)
    requires ctx.boundAt <= |ctx.log|
    requires RelayTheorems.ReceiptsInOrder(ctx.log[ctx.boundAt..], ctx.account.value.username, accepted)
    ensures forall i | ctx.boundAt <= i < |ctx.log| :: !ctx.log[i].message.MessageReceipt?
  {
    var es := ctx.log[ctx.boundAt..];
    forall i | ctx.boundAt <= i < |ctx.log| ensures !ctx.log[i].message.MessageReceipt? {
      assert ctx.log[i] == es[i - ctx.boundAt];
    }
  }

  /** In every run of schema-valid frames, a connection bound to an account whose username is not a
      routing identifier is never handed a message, and no message of it is ever accepted. */
  lemma UnroutableAccountIsMute(w: World, c: ConnId)
    requires Reachable(w)
    requires c in w.relay.conns && w.relay.conns[c].account.Some?
    requires !Identifiers.Routable(w.relay.conns[c].account.value.username)
    ensures var ctx := w.relay.conns[c];
            && ctx.boundAt <= |ctx.log|
            && (forall i | ctx.boundAt <= i < |ctx.log| :: !ctx.log[i].message.MessageReceipt?)
            && (forall i | 0 <= i < |w.relay.history.accepted| :: w.relay.history.accepted[i].origin != c)
  {
    ReachableIsRoutable(w);
    RelayTheorems.DeliveryInOrder(w, c);
    NoReceiptSinceBound(w.relay.conns[c], w.relay.history.accepted);
    ReachableIsGood(w);
  }
}
