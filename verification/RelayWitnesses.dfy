/** Runs in which the code does not do what its comments or its protocol document say. */
module RelayWitnesses {
  import opened Prelude
  import opened RelayModel
  import opened RelaySystem
  import opened RelayInvariants
  import opened RelayProtocol
  import opened RelaySteps

  // ---------------------------------------------------------------- records left behind

  /** A connection whose upgrade fails is never unregistered, under any limits. */
  lemma FailedUpgradeLeaks(limits: Limits, c: ConnId, provisional: Identity)
    requires limits.Positive()
    ensures exists m ::
              && Reaches(limits, m) && c in m.world.tasks && m.world.tasks[c].phase.Ended?
              && c in m.world.relay.conns && IsConnected(m.world.relay, provisional)
  {
    ReachesBeginning(limits);
    Opens(Start(limits), c, provisional);
    var entered := Step(limits, Beginning(limits), Open(c, provisional));
    var ended := Step(limits, entered, Accept(c, false));
    assert c in IdsOf(ended.world.relay.byClient, provisional);
  }

  /** The connection's writer has died of an exception it does not handle. */
  ghost predicate CrashedIn(w: World, c: ConnId, phase: Phase) {
    && c in w.tasks && w.tasks[c].phase == phase && w.tasks[c].accepted && w.tasks[c].writer == Stopped(Crashed)
    && c in w.relay.conns
  }

  lemma WriterCrashes(w: World, c: ConnId, provisional: Identity)
    requires Arrived(w, c, provisional, 0)
    ensures CrashedIn(Apply(w, Settle(c, RaisedOther)), c, Serving)
  {
  }

  lemma CrashedLeaves(w: World, c: ConnId)
    requires CrashedIn(w, c, Serving)
    ensures CrashedIn(Apply(w, Leave(c)), c, Closing(Normal))
  {
  }

  lemma CrashedStops(w: World, c: ConnId)
    requires CrashedIn(w, c, Closing(Normal))
    ensures CrashedIn(Apply(w, StopWriter(c, true)), c, Stopping)
  {
  }

  lemma CrashedFinishes(w: World, c: ConnId)
    requires CrashedIn(w, c, Stopping)
    ensures CrashedIn(Apply(w, Finish(c)), c, Ended)
  {
  }

  /** Under any limits some run ends an accepted connection's handler and leaves its record registered. */
  lemma CrashedWriterLeaks(limits: Limits, c: ConnId, provisional: Identity)
    requires limits.Positive()
    ensures exists m :: Reaches(limits, m) && CrashedIn(m.world, c, Ended)
  {
    ReachesBeginning(limits);
    var m := Arrives(limits, Beginning(limits), c, provisional);
    WriterCrashes(m.world, c, provisional);
    m := Step(limits, m, Settle(c, RaisedOther));
    CrashedLeaves(m.world, c);
    m := Step(limits, m, Leave(c));
    CrashedStops(m.world, c);
    m := Step(limits, m, StopWriter(c, true));
    CrashedFinishes(m.world, c);
    m := Step(limits, m, Finish(c));
  }

  // ---------------------------------------------------------------- the per-client limit

  function Name(n: nat): (s: string)
    ensures |s| == n
  {
    seq(n, i => 'x')
  }

  /** Longer than the account's username, hence different from it. */
  function Provisional(n: nat, account: Account): Identity {
    "anon-" + Name(|account.username| + n)
  }

  /** There are `n` connections, under names and provisional ids that leave the next ones free. */
  ghost predicate Crowd(m: Moment, n: nat, account: Account) {
    && |m.world.relay.conns| == n
    && (forall c :: c in m.world.tasks <==> c in m.world.relay.conns)
    && (forall c | c in m.world.relay.conns :: |c| <= n)
    && (forall id | id in m.ids :: |id| <= |account.username| + n + 5)
  }

  /** All connections, and nobody else, are signed in to the account. */
  ghost predicate AllSignedIn(r: Relay, account: Account) {
    && r.byClient.Keys <= {account.username}
    && IdsOf(r.byClient, account.username) == r.conns.Keys
    && r.offline == map[]
  }

  lemma NextMaySignIn(limits: Limits, m: Moment, n: nat, account: Account)
    requires limits.Positive() && m.world.relay.limits == limits && n < limits.maxTotalConnections
    requires Crowd(m, n, account) && AllSignedIn(m.world.relay, account)
    ensures var c, provisional := Name(n + 1), Provisional(n + 1, account);
            && c !in m.world.tasks && provisional !in m.ids && provisional !in m.world.relay.byClient
            && MayRegister(m.world.relay, provisional)
  {
    var provisional := Provisional(n + 1, account);
    assert |provisional| == |account.username| + n + 6;
  }

  lemma CrowdGrows(m: Moment, m': Moment, n: nat, account: Account)
    requires Crowd(m, n, account) && OnlyOwn(m.world, m'.world, Name(n + 1))
    requires Name(n + 1) in m'.world.relay.conns && Name(n + 1) in m'.world.tasks
    requires m'.ids == m.ids + {Provisional(n + 1, account)}
    ensures Crowd(m', n + 1, account)
  {
    OneConnectionMore(m.world, m'.world, Name(n + 1));
  }

  lemma NextHasSignedIn(w: World, w': World, c: ConnId, account: Account)
    requires AllSignedIn(w.relay, account) && OnlyOwn(w, w', c) && c !in w.relay.conns && c in w'.relay.conns
    requires w'.relay.byClient == IndexAdd(w.relay.byClient, account.username, c) && w'.relay.offline == map[]
    ensures AllSignedIn(w'.relay, account)
  {
    OneConnectionMore(w, w', c);
  }

  lemma OneMoreSignedIn(limits: Limits, m: Moment, n: nat, account: Account) returns (m': Moment)
    requires Reaches(limits, m) && m.world.relay.limits == limits && n < limits.maxTotalConnections
    requires Crowd(m, n, account) && AllSignedIn(m.world.relay, account)
    ensures Reaches(limits, m') && m'.world.relay.limits == limits
    ensures Crowd(m', n + 1, account) && AllSignedIn(m'.world.relay, account)
  {
    var c, provisional := Name(n + 1), Provisional(n + 1, account);
    NextMaySignIn(limits, m, n, account);
    var arrived := Arrives(limits, m, c, provisional);
    m' := SignsIn(limits, arrived, c, provisional, "t", account, arrived.now);
    AddThenRemove(m.world.relay.byClient, provisional, c);
    OnlyOwnTransitive(m.world, arrived.world, m'.world, c);
    CrowdGrows(m, m', n, account);
    NextHasSignedIn(m.world, m'.world, c, account);
  }

  lemma {:induction false} ManySignedIn(limits: Limits, n: nat, account: Account) returns (m: Moment)
    requires limits.Positive() && n <= limits.maxTotalConnections
    ensures Reaches(limits, m) && m.world.relay.limits == limits
    ensures Crowd(m, n, account) && AllSignedIn(m.world.relay, account)
  {
    if n == 0 {
      m := Beginning(limits);
      ReachesBeginning(limits);
    } else {
      var before := ManySignedIn(limits, n - 1, account);
      m := OneMoreSignedIn(limits, before, n - 1, account);
    }
  }

  /** The per-client limit is no bound on an account's connections: whatever it is, some run gives
      one account as many connections as the total limit allows. */
  lemma ClientLimitIsNoBound(limits: Limits, account: Account)
    requires limits.Positive()
    ensures exists m ::
              && Reaches(limits, m)
              && |IdsOf(m.world.relay.byClient, account.username)| == limits.maxTotalConnections
  {
    var m := ManySignedIn(limits, limits.maxTotalConnections, account);
    assert |m.world.relay.conns| == |m.world.relay.conns.Keys|;
  }

  // ---------------------------------------------------------------- acknowledgements

  /** Not every message.send is acknowledged, even with room for the answer: one without a recipient
      gets an error instead. */
  lemma SendWithoutAcknowledgement(r: Relay, c: ConnId, env: Envelope)
    requires Indexed(r) && r.limits.Positive() && c in r.conns && r.conns[c].Takes(r.limits.maxPendingOutbound)
    requires env.kind.MessageSend? && env.recipient.None? && env.sender == r.conns[c].Identity()
    ensures var o := Dispatch(r, c, env);
            && r.conns[c].log <= o.relay.conns[c].log
            && Acks(o.relay.conns[c].log[|r.conns[c].log|..]) == 0
            && |o.relay.conns[c].log| == |r.conns[c].log| + 1
  {
    OneAckPerSend(r, c, env);
  }
}
