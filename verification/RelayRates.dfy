/** How many frames of a connection can have an effect in a while, over whole runs. */
module RelayRates {
  import opened Prelude
  import opened RelayModel
  import opened RelaySystem
  import opened RelayRuns
  import opened RelayFrames
  import RateBounds
  import RateLimiting
  import RelayTasks
  import RelayTheorems

  /** The event is a frame of the connection, and not too large. */
  predicate IsCounted(w: World, e: Event, c: ConnId) {
    Enabled(w, e) && e.Receive? && e.c == c && e.frame.bytes <= w.relay.limits.maxMessageBytes
  }

  /** When the frames of a connection that its limiter has counted arrived. */
  function Times(limits: Limits, events: seq<Event>, c: ConnId): seq<Instant> {
    if events == [] then []
    else
      var most, e := events[..|events| - 1], events[|events| - 1];
      Times(limits, most, c) + if IsCounted(Exec(Start(limits), most), e, c) then [e.now] else []
  }

  /** The event is a frame of the connection that arrives in [from, to) and has an effect. */
  ghost predicate HasEffect(w: World, e: Event, c: ConnId, from: Instant, to: Instant) {
    && Enabled(w, e) && e.Receive? && e.c == c && from <= e.now < to
    && Effective(w.relay, HandleFrame(w.relay, c, e.frame, e.now), c)
  }

  ghost function EffectiveIn(limits: Limits, events: seq<Event>, c: ConnId, from: Instant, to: Instant): nat {
    if events == [] then 0
    else
      var most, e := events[..|events| - 1], events[|events| - 1];
      EffectiveIn(limits, most, c, from, to)
      + if HasEffect(Exec(Start(limits), most), e, c, from, to) then 1 else 0
  }

  // ---------------------------------------------------------------- the limiter in a run

  lemma DispatchCountsNothing(r: Relay, d: ConnId, env: Envelope, c: ConnId)
    requires d in r.conns && c in r.conns
    ensures var r' := Dispatch(r, d, env).relay;
            c in r'.conns && r'.conns[c].limiter == r.conns[c].limiter
  {
  }

  lemma FrameCounts(r: Relay, d: ConnId, frame: Frame, now: Instant, c: ConnId)
    requires d in r.conns && c in r.conns
    ensures var r' := HandleFrame(r, d, frame, now).relay;
            && c in r'.conns
            && r'.conns[c].limiter == if c == d && frame.bytes <= r.limits.maxMessageBytes
                                      then RateLimiting.Tick(r.conns[c].limiter, r.limits.windowSeconds, now)
                                      else r.conns[c].limiter
  {
    if frame.bytes <= r.limits.maxMessageBytes {
      var window := RateLimiting.Tick(r.conns[d].limiter, r.limits.windowSeconds, now);
      var counted := SetContext(r, d, r.conns[d].(limiter := window));
      match ValidateInbound(r.conns[d].account.Some?, frame.body) {
        case Refused(_) =>
        case Valid(env) => DispatchCountsNothing(counted, d, env, c);
      }
    }
  }

  lemma ReceiveSteps(w: World, d: ConnId, frame: Frame, now: Instant, c: ConnId)
    requires Enabled(w, Receive(d, frame, now)) && c in Effect(w, Receive(d, frame, now)).relay.conns
    ensures c in w.relay.conns
    ensures var e := Receive(d, frame, now);
            Effect(w, e).relay.conns[c].limiter
            == if IsCounted(w, e, c)
               then RateLimiting.Tick(w.relay.conns[c].limiter, w.relay.limits.windowSeconds, now)
               else w.relay.conns[c].limiter
  {
    RelayTasks.HandleFrameGrows(w.relay, d, frame, now);
    FrameCounts(w.relay, d, frame, now, c);
  }

  lemma ResolveSteps(w: World, d: ConnId, resolved: Option<Account>, c: ConnId)
    requires Enabled(w, Resolve(d, resolved)) && c in Effect(w, Resolve(d, resolved)).relay.conns
    ensures c in w.relay.conns
    ensures Effect(w, Resolve(d, resolved)).relay.conns[c].limiter == w.relay.conns[c].limiter
  {
  }

  lemma OpenSteps(w: World, d: ConnId, provisional: Identity, c: ConnId)
    requires Enabled(w, Open(d, provisional)) && c in Effect(w, Open(d, provisional)).relay.conns
    ensures var limiter := Effect(w, Open(d, provisional)).relay.conns[c].limiter;
            if c in w.relay.conns && c != d then limiter == w.relay.conns[c].limiter
            else if c in w.relay.conns then d in w.relay.conns
            else c !in w.tasks && limiter == RateLimiting.FRESH
  {
  }

  lemma OthersStep(w: World, e: Event, c: ConnId)
    requires Enabled(w, e) && !e.Receive? && !e.Resolve? && !e.Open? && c in Effect(w, e).relay.conns
    ensures c in w.relay.conns && Effect(w, e).relay.conns[c].limiter == w.relay.conns[c].limiter
  {
  }

  /** What any event does to a connection's limiter. */
  lemma LimiterSteps(w: World, e: Event, c: ConnId)
    requires Good(w) && c in Apply(w, e).relay.conns
    ensures var limiter := Apply(w, e).relay.conns[c].limiter;
            if c !in w.relay.conns then c !in w.tasks && limiter == RateLimiting.FRESH && !IsCounted(w, e, c)
            else if IsCounted(w, e, c)
                 then limiter == RateLimiting.Tick(w.relay.conns[c].limiter, w.relay.limits.windowSeconds, e.now)
                 else limiter == w.relay.conns[c].limiter
  {
    if Enabled(w, e) {
      if e.Receive? {
        ReceiveSteps(w, e.c, e.frame, e.now, c);
      } else if e.Resolve? {
        ResolveSteps(w, e.c, e.resolved, c);
      } else if e.Open? {
        OpenSteps(w, e.c, e.provisional, c);
      } else {
        OthersStep(w, e, c);
      }
    }
  }

  /** The connection's limiter has counted these frames. */
  ghost predicate HasCounted(w: World, c: ConnId, times: seq<Instant>) {
    && (c !in w.tasks ==> times == [])
    && (c in w.relay.conns ==> w.relay.conns[c].limiter == RateBounds.After(times, w.relay.limits.windowSeconds))
  }

  lemma AfterSnoc(times: seq<Instant>, now: Instant, seconds: real)
    ensures RateBounds.After(times + [now], seconds)
            == RateLimiting.Tick(RateBounds.After(times, seconds), seconds, now)
  {
    assert (times + [now])[..|times|] == times;
  }

  lemma StepKeepsCounted(w: World, e: Event, c: ConnId, times: seq<Instant>)
    requires Good(w) && HasCounted(w, c, times)
    ensures HasCounted(Apply(w, e), c, times + if IsCounted(w, e, c) then [e.now] else [])
  {
    var w' := Apply(w, e);
    RelayTheorems.StepKeepsLimits(w, e);
    if c in w.tasks {
      RelayTheorems.NoReturn(w, e, c);
    }
    if c in w'.relay.conns {
      LimiterSteps(w, e, c);
      if IsCounted(w, e, c) {
        AfterSnoc(times, e.now, w.relay.limits.windowSeconds);
      } else {
        assert times + [] == times;
      }
    }
  }

  lemma {:induction false} RunsCount(limits: Limits, events: seq<Event>, c: ConnId)
    requires limits.Positive()
    ensures HasCounted(Exec(Start(limits), events), c, Times(limits, events, c))
  {
    if events == [] {
    } else {
      var n := |events| - 1;
      RunsCount(limits, events[..n], c);
      Always(limits, events[..n]);
      StepKeepsCounted(Exec(Start(limits), events[..n]), events[n], c, Times(limits, events[..n], c));
    }
  }

  // ---------------------------------------------------------------- effects are admitted calls

  lemma EffectIsAdmitted(w: World, e: Event, c: ConnId, times: seq<Instant>, from: Instant, to: Instant)
    requires Good(w) && HasCounted(w, c, times) && HasEffect(w, e, c, from, to)
    ensures IsCounted(w, e, c)
    ensures RateBounds.Admitted(times + [e.now], w.relay.limits.windowSeconds, w.relay.limits.maxMessagesPerWindow)
  {
    assert RelayTasks.Tracked(w.tasks[c], w.relay.conns[c]);
    EffectiveExactly(w.relay, c, e.frame, e.now);
    AfterSnoc(times, e.now, w.relay.limits.windowSeconds);
  }

  lemma AdmittedSnoc(times: seq<Instant>, now: Instant, seconds: real, max: nat, from: Instant, to: Instant)
    ensures RateBounds.AdmittedIn(times + [now], seconds, max, from, to)
            == RateBounds.AdmittedIn(times, seconds, max, from, to)
               + if from <= now < to && RateBounds.Admitted(times + [now], seconds, max) then 1 else 0
  {
    assert (times + [now])[..|times|] == times;
  }

  lemma {:induction false} EffectsAreAdmitted(
      limits: Limits, events: seq<Event>, c: ConnId, from: Instant, to: Instant)
    requires limits.Positive()
    ensures EffectiveIn(limits, events, c, from, to)
            <= RateBounds.AdmittedIn(
                 Times(limits, events, c), limits.windowSeconds, limits.maxMessagesPerWindow, from, to)
  {
    if events == [] {
    } else {
      var n := |events| - 1;
      var w, times := Exec(Start(limits), events[..n]), Times(limits, events[..n], c);
      EffectsAreAdmitted(limits, events[..n], c, from, to);
      RunsCount(limits, events[..n], c);
      Always(limits, events[..n]);
      RelayTheorems.LimitsAreFixed(Start(limits), events[..n]);
      if HasEffect(w, events[n], c, from, to) {
        EffectIsAdmitted(w, events[n], c, times, from, to);
      }
      if IsCounted(w, events[n], c) {
        AdmittedSnoc(times, events[n].now, limits.windowSeconds, limits.maxMessagesPerWindow, from, to);
      } else {
        assert times + [] == times;
      }
    }
  }

  // ---------------------------------------------------------------- the bound

  /** The clock that frames are stamped with does not go back. */
  predicate Clocked(events: seq<Event>) {
    forall i, j | 0 <= i < j < |events| && events[i].Receive? && events[j].Receive? :: events[i].now <= events[j].now
  }

  lemma {:induction false} TimesAreClocked(limits: Limits, events: seq<Event>, c: ConnId)
    requires Clocked(events)
    ensures NonDecreasing(Times(limits, events, c))
    ensures forall t | t in Times(limits, events, c) ::
              exists i :: 0 <= i < |events| && events[i].Receive? && events[i].now == t
  {
    if events == [] {
    } else {
      var n := |events| - 1;
      var most, times := events[..n], Times(limits, events[..n], c);
      TimesAreClocked(limits, most, c);
      forall t | t in times ensures exists i :: 0 <= i < n && events[i].Receive? && events[i].now == t {
        var i :| 0 <= i < |most| && most[i].Receive? && most[i].now == t;
        assert events[i] == most[i];
      }
      if IsCounted(Exec(Start(limits), most), events[n], c) {
        forall j | 0 <= j < |times| ensures times[j] <= events[n].now {
          assert times[j] in times;
        }
      }
    }
  }

  /** In every run, whatever a connection sends, at most (k + 1) times the limit of its frames have an
      effect in any half-open interval of k windows' length. */
  lemma EffectsAreBounded(limits: Limits, events: seq<Event>, c: ConnId, from: Instant, k: nat)
    requires limits.Positive() && Clocked(events) && k >= 1
    ensures EffectiveIn(limits, events, c, from, from + k as real * limits.windowSeconds)
            <= (k + 1) * limits.maxMessagesPerWindow
  {
    EffectsAreAdmitted(limits, events, c, from, from + k as real * limits.windowSeconds);
    TimesAreClocked(limits, events, c);
    RateBounds.AdmissionBound(Times(limits, events, c), limits.windowSeconds, limits.maxMessagesPerWindow, from, k);
  }
}
