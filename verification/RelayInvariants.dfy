/** What every reachable state of the relay satisfies, one predicate per concern. */
module RelayInvariants {
  import opened Prelude
  import opened RelayModel
  import OfflineQueues

  // ---------------------------------------------------------------- statements

  /** The index is the inverse of routing identity. */
  predicate Indexed(r: Relay) {
    && (forall id | id in r.byClient :: r.byClient[id] != {})
    && (forall id, c | id in r.byClient && c in r.byClient[id] :: c in r.conns && r.conns[c].Identity() == id)
    && (forall c | c in r.conns :: c in IdsOf(r.byClient, r.conns[c].Identity()))
  }

  /** No authenticated connection's account has anything queued offline. */
  predicate NoStaleBacklog(r: Relay) {
    forall c | c in r.conns && r.conns[c].account.Some? :: r.conns[c].account.value.username !in r.offline
  }

  predicate QueuesBounded(q: OfflineQueues.Queues<Entry>, limits: Limits) {
    && |q| <= limits.maxQueuedRecipients
    && (forall id | id in q :: 0 < |q[id]| <= limits.maxQueuedPerRecipient)
  }

  predicate OfflineBounded(r: Relay) {
    QueuesBounded(r.offline, r.limits)
  }

  /** Every size the relay bounds is within its limit, and no tracked recipient has an empty queue. */
  predicate Bounded(r: Relay) {
    && |r.conns| <= r.limits.maxTotalConnections
    && (forall c | c in r.conns :: |r.conns[c].pending| <= r.limits.maxPendingOutbound)
    && OfflineBounded(r)
  }

  /** A routed entry is the message accepted at its stamp, addressed to `id`. */
  predicate Matches(e: Entry, id: Identity, accepted: seq<Accepted>) {
    e.Routed? ==>
      && e.stamp < |accepted|
      && accepted[e.stamp].receipt == e.message && accepted[e.stamp].receipt.recipient == id
  }

  predicate Increasing(es: seq<Entry>) {
    forall i, j | 0 <= i < j < |es| && es[i].Routed? && es[j].Routed? :: es[i].stamp < es[j].stamp
  }

  predicate WasQueued(e: Entry, accepted: seq<Accepted>) {
    e.Routed? && e.stamp < |accepted| && accepted[e.stamp].status.Queued?
  }

  /** Nothing that went through the offline queue comes after a routed message that did not. */
  predicate BacklogFirst(es: seq<Entry>, accepted: seq<Accepted>) {
    forall i, j | 0 <= i < j < |es| && es[i].Routed? && WasQueued(es[j], accepted) :: WasQueued(es[i], accepted)
  }

  /** The routed entries of `es` are a strictly increasing subsequence of the messages accepted for
      `id`, backlog first. */
  predicate InOrder(es: seq<Entry>, id: Identity, accepted: seq<Accepted>) {
    && (forall i | 0 <= i < |es| :: Matches(es[i], id, accepted))
    && Increasing(es)
    && BacklogFirst(es, accepted)
  }

  function Boundary(ctx: Context): nat {
    if ctx.account.None? then |ctx.log| else ctx.boundAt
  }

  predicate LogInOrder(ctx: Context, accepted: seq<Accepted>) {
    && Boundary(ctx) <= |ctx.log|
    && InOrder(ctx.log[..Boundary(ctx)], ctx.provisional, accepted)
    && InOrder(ctx.log[Boundary(ctx)..], ctx.Identity(), accepted)
  }

  predicate Ordered(r: Relay) {
    forall c | c in r.conns :: LogInOrder(r.conns[c], r.history.accepted)
  }

  /** The messages answered `queued` for a recipient, oldest first. */
  function QueuedFor(accepted: seq<Accepted>, id: Identity): seq<Entry> {
    if accepted == [] then []
    else
      var last := |accepted| - 1;
      var a := accepted[last];
      QueuedFor(accepted[..last], id)
      + if a.status.Queued? && a.receipt.recipient == id then [Routed(a.receipt, last)] else []
  }

  /** What was ever drained for a recipient, then what is still queued, is all that was queued for it. */
  ghost predicate Conserved(r: Relay) {
    forall id :: QueuedFor(r.history.accepted, id) == DrainedFor(r.history, id) + OfflineQueues.QueueOf(r.offline, id)
  }

  /** A connection has the account it was once bound to, and every accepted message names as sender
      the account bound to the connection it came from. */
  predicate Authentic(r: Relay) {
    && (forall c | c in r.conns ::
          r.conns[c].account == if c in r.history.bound then Some(r.history.bound[c]) else None)
    && (forall i | 0 <= i < |r.history.accepted| ::
          var a := r.history.accepted[i];
          a.origin in r.history.bound && r.history.bound[a.origin].username == a.receipt.sender)
  }

  ghost predicate Sound(r: Relay) {
    && r.limits.Positive()
    && Indexed(r) && NoStaleBacklog(r) && Ordered(r) && Conserved(r) && Authentic(r)
  }

  // ---------------------------------------------------------------- ordered sequences of entries

  lemma InOrderMonotone(es: seq<Entry>, id: Identity, accepted: seq<Accepted>, a: Accepted)
    requires InOrder(es, id, accepted)
    ensures InOrder(es, id, accepted + [a])
  {
    forall i | 0 <= i < |es| && es[i].Routed?
      ensures Matches(es[i], id, accepted + [a]) && (WasQueued(es[i], accepted + [a]) <==> WasQueued(es[i], accepted))
    {
      assert Matches(es[i], id, accepted);
    }
  }

  lemma InOrderPrefix(es: seq<Entry>, n: nat, id: Identity, accepted: seq<Accepted>)
    requires n <= |es| && InOrder(es, id, accepted)
    ensures InOrder(es[..n], id, accepted)
  {
  }

  lemma InOrderAppendOwn(es: seq<Entry>, own: seq<Entry>, id: Identity, accepted: seq<Accepted>)
    requires InOrder(es, id, accepted)
    requires forall i | 0 <= i < |own| :: own[i].Own?
    ensures InOrder(es + own, id, accepted)
  {
  }

  /** A message delivered live is put behind everything accepted earlier. */
  lemma InOrderAppendLive(es: seq<Entry>, id: Identity, accepted: seq<Accepted>, a: Accepted)
    requires InOrder(es, id, accepted)
    requires a.status.Delivered? && a.receipt.recipient == id
    ensures InOrder(es + [Routed(a.receipt, |accepted|)], id, accepted + [a])
  {
    InOrderMonotone(es, id, accepted, a);
    var es' := es + [Routed(a.receipt, |accepted|)];
    forall i, j | 0 <= i < j < |es'| && es'[i].Routed? && es'[j].Routed?
      ensures es'[i].stamp < es'[j].stamp
    {
      assert Matches(es[i], id, accepted);
    }
  }

  lemma {:induction false} QueuedForInOrder(accepted: seq<Accepted>, id: Identity)
    ensures InOrder(QueuedFor(accepted, id), id, accepted)
    ensures forall e | e in QueuedFor(accepted, id) :: WasQueued(e, accepted)
  {
    if accepted == [] {
    } else {
      var last := |accepted| - 1;
      var a := accepted[last];
      QueuedForInOrder(accepted[..last], id);
      var q := QueuedFor(accepted[..last], id);
      assert accepted == accepted[..last] + [a];
      InOrderMonotone(q, id, accepted[..last], a);
      assert forall e | e in q :: WasQueued(e, accepted[..last]);
      assert forall e | e in q :: e.stamp < last && WasQueued(e, accepted);
    }
  }

  lemma InOrderSuffix(es: seq<Entry>, n: nat, id: Identity, accepted: seq<Accepted>)
    requires n <= |es| && InOrder(es, id, accepted)
    ensures InOrder(es[n..], id, accepted)
  {
    forall i, j | 0 <= i < j < |es| - n && es[n..][i].Routed? && WasQueued(es[n..][j], accepted)
      ensures WasQueued(es[n..][i], accepted)
    {
      assert es[n + i].Routed? && WasQueued(es[n + j], accepted);
    }
  }

  // ---------------------------------------------------------------- changes of one connection

  /** Same identity, and the log grows by the connection's own replies only. */
  predicate Quiet(a: Context, b: Context) {
    && b.provisional == a.provisional && b.account == a.account && b.boundAt == a.boundAt
    && a.log <= b.log
    && (forall i | |a.log| <= i < |b.log| :: b.log[i].Own?)
  }

  lemma QuietKeepsLog(a: Context, b: Context, accepted: seq<Accepted>)
    requires Quiet(a, b) && LogInOrder(a, accepted)
    ensures LogInOrder(b, accepted)
  {
    var own := b.log[|a.log|..];
    assert b.log == a.log + own;
    if a.account.None? {
      assert a.log[..|a.log|] == a.log && b.log[..|b.log|] == a.log + own && b.log[|b.log|..] == a.log[|a.log|..];
      InOrderAppendOwn(a.log, own, a.provisional, accepted);
    } else {
      assert b.log[..a.boundAt] == a.log[..a.boundAt] && b.log[a.boundAt..] == a.log[a.boundAt..] + own;
      InOrderAppendOwn(a.log[a.boundAt..], own, a.Identity(), accepted);
    }
  }

  /** Connections, their identities and the index unchanged, and nothing newly queued offline. */
  predicate SameRegistry(r: Relay, r': Relay) {
    && r'.conns.Keys == r.conns.Keys && r'.byClient == r.byClient
    && r'.offline.Keys <= r.offline.Keys
    && (forall c | c in r.conns ::
          r'.conns[c].provisional == r.conns[c].provisional && r'.conns[c].account == r.conns[c].account)
  }

  lemma SameRegistryKeepsIndexed(r: Relay, r': Relay)
    requires Indexed(r) && SameRegistry(r, r')
    ensures Indexed(r')
  {
    forall c | c in r'.conns ensures c in IdsOf(r'.byClient, r'.conns[c].Identity()) {
      assert c in IdsOf(r.byClient, r.conns[c].Identity());
    }
  }

  lemma SameRegistryKeepsNoStaleBacklog(r: Relay, r': Relay)
    requires NoStaleBacklog(r) && SameRegistry(r, r')
    ensures NoStaleBacklog(r')
  {
  }

  lemma QuietKeepsOrdered(r: Relay, c: ConnId, ctx: Context)
    requires Ordered(r) && c in r.conns && Quiet(r.conns[c], ctx)
    ensures Ordered(SetContext(r, c, ctx))
  {
    QuietKeepsLog(r.conns[c], ctx, r.history.accepted);
  }

  lemma QuietKeepsAuthentic(r: Relay, c: ConnId, ctx: Context)
    requires Authentic(r) && c in r.conns && Quiet(r.conns[c], ctx)
    ensures Authentic(SetContext(r, c, ctx))
  {
  }

  lemma QuietKeepsSound(r: Relay, c: ConnId, ctx: Context)
    requires Sound(r) && c in r.conns && Quiet(r.conns[c], ctx)
    ensures Sound(SetContext(r, c, ctx))
  {
    var r' := SetContext(r, c, ctx);
    assert SameRegistry(r, r');
    SameRegistryKeepsIndexed(r, r');
    SameRegistryKeepsNoStaleBacklog(r, r');
    QuietKeepsOrdered(r, c, ctx);
    QuietKeepsAuthentic(r, c, ctx);
  }

  lemma PutAllIsQuiet(ctx: Context, es: seq<Entry>, capacity: nat)
    requires forall i | 0 <= i < |es| :: es[i].Own?
    ensures Quiet(ctx, ctx.PutAll(es, capacity))
  {
  }
}
