/** A possible run that loses a queued message, under any limits. */
module RelayLosses {
  import opened Prelude
  import opened RelayModel
  import opened RelaySystem
  import opened RelaySteps
  import opened RelayBacklogs
  import OfflineQueues
  import RateLimiting
  import RelayInvariants
  import RelayTheorems

  // ---------------------------------------------------------------- the sender

  /** The only connection, under way to its end; its writer has not crashed. */
  ghost predicate Going(w: World, a: ConnId, limits: Limits) {
    && w.relay.limits == limits
    && a in w.tasks && w.tasks[a].writer != Stopped(Crashed) && a in w.relay.conns
    && (forall c | c != a :: c !in w.tasks && c !in w.relay.conns)
  }

  lemma SendQueues(r: Relay, a: ConnId, account: Account, recipient: Identity, n: nat)
    requires r.limits.Positive() && a in r.conns && r.conns[a].account == Some(account)
    requires r.conns[a].limiter == RateLimiting.Window(0.0, 1)
    requires r.offline == map[] && !IsConnected(r, recipient)
    ensures var o := HandleFrame(r, a, Send(account.username, recipient), r.limits.windowSeconds);
            && o.relay.limits == r.limits && |OfflineQueues.QueueOf(o.relay.offline, recipient)| == 1
            && a in o.relay.conns && o.relay.conns == r.conns[a := o.relay.conns[a]]
            && !o.next.AwaitToken?
  {
  }

  /** The message is queued for a recipient without connection. */
  lemma SenderSends(w: World, a: ConnId, account: Account, recipient: Identity, limits: Limits)
    requires Going(w, a, limits) && Serves(w, a, account, 1)
    requires w.relay.conns[a].limiter == RateLimiting.Window(0.0, 1)
    requires w.relay.offline == map[] && !IsConnected(w.relay, recipient)
    ensures var w' := Apply(w, Receive(a, Send(account.username, recipient), limits.windowSeconds));
            && Going(w', a, limits) && (w'.tasks[a].phase.Serving? || w'.tasks[a].phase.Closing?)
            && |OfflineQueues.QueueOf(w'.relay.offline, recipient)| == 1
  {
    SendQueues(w.relay, a, account, recipient, 1);
  }

  lemma LeaveStep(w: World, a: ConnId, limits: Limits)
    requires Going(w, a, limits) && w.tasks[a].phase.Serving?
    ensures var w' := Apply(w, Leave(a));
            Going(w', a, limits) && w'.tasks[a].phase.Closing? && w'.relay.offline == w.relay.offline
  {
  }

  lemma StopStep(w: World, a: ConnId, limits: Limits)
    requires Going(w, a, limits) && w.tasks[a].phase.Closing?
    ensures var w' := Apply(w, StopWriter(a, true));
            Going(w', a, limits) && w'.tasks[a].phase.Stopping? && w'.relay.offline == w.relay.offline
  {
  }

  lemma FinishStep(w: World, a: ConnId, limits: Limits)
    requires Going(w, a, limits) && w.tasks[a].phase.Stopping?
    ensures var w' := Apply(w, Finish(a));
            && w'.relay.limits == limits && w'.relay.conns == map[] && (forall c | c != a :: c !in w'.tasks)
            && w'.relay.offline == w.relay.offline
  {
  }

  /** The sender's handler comes to its end. */
  lemma SenderLeaves(limits: Limits, m: Moment, a: ConnId) returns (m': Moment)
    requires Reaches(limits, m) && Going(m.world, a, limits)
    requires m.world.tasks[a].phase.Serving? || m.world.tasks[a].phase.Closing?
    ensures Reaches(limits, m') && m'.now == m.now && m'.ids == m.ids
    ensures m'.world.relay.limits == limits && m'.world.relay.conns == map[]
    ensures forall c | c != a :: c !in m'.world.tasks
    ensures m'.world.relay.offline == m.world.relay.offline
  {
    m' := m;
    if m'.world.tasks[a].phase.Serving? {
      LeaveStep(m'.world, a, limits);
      m' := Step(limits, m', Leave(a));
    }
    StopStep(m'.world, a, limits);
    m' := Step(limits, m', StopWriter(a, true));
    FinishStep(m'.world, a, limits);
    m' := Step(limits, m', Finish(a));
  }

  lemma OnlyItsOwn(r: Relay, a: ConnId, other: Identity)
    requires RelayInvariants.Indexed(r) && (forall c | c != a :: c !in r.conns)
    requires a in r.conns ==> r.conns[a].Identity() != other
    ensures !IsConnected(r, other)
  {
    RelayTheorems.IndexedIsInverse(r);
  }

  /** From the beginning to the sender's account. */
  lemma SenderSignsIn(limits: Limits, account: Account) returns (m: Moment)
    requires limits.Positive()
    ensures Reaches(limits, m) && m.now == 0.0 && m.ids == {"anon-a"}
    ensures Going(m.world, "a", limits) && Serves(m.world, "a", account, 1)
    ensures m.world.relay.conns["a"].limiter == RateLimiting.Window(0.0, 1) && m.world.relay.offline == map[]
  {
    ReachesBeginning(limits);
    var arrived := Arrives(limits, Beginning(limits), "a", "anon-a");
    m := SignsIn(limits, arrived, "a", "anon-a", "t", account, 0.0);
    OnlyOwnTransitive(Start(limits), arrived.world, m.world, "a");
  }

  /** One window later its message has been queued, and it is gone. */
  lemma SenderLoads(limits: Limits, account: Account, recipient: Identity) returns (m: Moment)
    requires limits.Positive() && account.username != recipient
    ensures Reaches(limits, m) && m.now == limits.windowSeconds && m.ids == {"anon-a"}
    ensures m.world.relay.limits == limits && m.world.relay.conns == map[] && "b" !in m.world.tasks
    ensures |OfflineQueues.QueueOf(m.world.relay.offline, recipient)| == 1
  {
    m := SenderSignsIn(limits, account);
    ReachesIsReachable(limits, m);
    OnlyItsOwn(m.world.relay, "a", recipient);
    SenderSends(m.world, "a", account, recipient, limits);
    m := Step(limits, m, Receive("a", Send(account.username, recipient), limits.windowSeconds));
    m := SenderLeaves(limits, m, "a");
  }

  // ---------------------------------------------------------------- the recipient

  /** Frames too large for the relay fill the queue of a connection whose writer is held up. */
  lemma {:induction false} Fills(limits: Limits, m: Moment, c: ConnId, provisional: Identity, n: nat)
      returns (m': Moment)
    requires Reaches(limits, m) && m.world.relay.limits == limits && n <= limits.maxPendingOutbound
    requires Arrived(m.world, c, provisional, n)
    ensures Reaches(limits, m') && m'.now == m.now && m'.world.relay.limits == limits
    ensures Arrived(m'.world, c, provisional, limits.maxPendingOutbound)
    ensures m'.world.relay.offline == m.world.relay.offline
    decreases limits.maxPendingOutbound - n
  {
    if n == limits.maxPendingOutbound {
      m' := m;
    } else {
      IsTooLarge(m.world, c, provisional, n, m.now);
      var next := Step(limits, m, Receive(c, Frame(limits.maxMessageBytes + 1, NotJson), m.now));
      m' := Fills(limits, next, c, provisional, n + 1);
    }
  }

  lemma RecipientArrives(limits: Limits, m: Moment) returns (m': Moment)
    requires Reaches(limits, m) && m.world.relay.limits == limits && m.world.relay.conns == map[]
    requires "b" !in m.world.tasks && "anon-b" !in m.ids
    ensures Reaches(limits, m') && m'.world.relay.limits == limits
    ensures Arrived(m'.world, "b", "anon-b", limits.maxPendingOutbound)
    ensures m'.world.relay.offline == m.world.relay.offline
  {
    ReachesIsReachable(limits, m);
    OnlyItsOwn(m.world.relay, "b", "anon-b");
    assert |m.world.relay.conns| == 0;
    var arrived := Arrives(limits, m, "b", "anon-b");
    m' := Fills(limits, arrived, "b", "anon-b", 0);
  }

  lemma FullIsCutShort(w: World, c: ConnId, provisional: Identity, token: string, account: Account)
    requires Midway(w, c, provisional, Resolving("m", token), w.relay.limits.maxPendingOutbound)
    requires |OfflineQueues.QueueOf(w.relay.offline, account.username)| == 1
    ensures CutsShort(w, Resolve(c, Some(account)))
  {
  }

  /** It authenticates for an account with a backlog then. */
  lemma RecipientWaits(limits: Limits, m: Moment, account: Account) returns (m': Moment)
    requires Reaches(limits, m) && m.world.relay.limits == limits && m.world.relay.conns == map[]
    requires "b" !in m.world.tasks && "anon-b" !in m.ids
    requires |OfflineQueues.QueueOf(m.world.relay.offline, account.username)| == 1
    ensures Reaches(limits, m') && CutsShort(m'.world, Resolve("b", Some(account)))
  {
    var full := RecipientArrives(limits, m);
    Presents(full.world, "b", "anon-b", "t", limits.maxPendingOutbound, full.now);
    m' := Step(limits, full, Receive("b", Authenticate("t"), full.now));
    FullIsCutShort(m'.world, "b", "anon-b", "t", account);
  }

  lemma CutLoses(limits: Limits, m: Moment, e: Event)
    requires Reaches(limits, m) && CutsShort(m.world, e)
    ensures SomeLost(After(m, e).world)
  {
    var events :| Possible(limits, events) && m == Passed(limits, events);
    PassedIsExec(limits, events);
    var more := events + [e];
    assert more[..|events|] == events;
    assert CutShortAt(limits, more, |events|);
    LossExactly(limits, more);
  }

  /** Under any limits some possible run loses a message that was answered `queued`. */
  lemma QueuedMessageIsLost(limits: Limits)
    requires limits.Positive()
    ensures exists m :: Reaches(limits, m) && SomeLost(m.world)
  {
    var alice, bob := Account("1", "alice", "2"), Account("3", "bob", "4");
    var loaded := SenderLoads(limits, alice, bob.username);
    var waiting := RecipientWaits(limits, loaded, bob);
    CutLoses(limits, waiting, Resolve("b", Some(bob)));
    var last := Step(limits, waiting, Resolve("b", Some(bob)));
  }
}
