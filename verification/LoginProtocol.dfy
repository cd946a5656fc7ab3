/** Logins racing on one failure tracker: the block check and the recording of the outcome are
    separated by awaits (server/app/auth/service.py:170-203). */
module LoginProtocol {
  import opened Prelude
  import opened FailedLogins

  datatype Policy = Policy(maxFailures: nat, windowSeconds: real)

  ghost predicate Sane(p: Policy) {
    p.maxFailures > 0 && p.windowSeconds > 0.0
  }

  type Attempt = nat

  /** `history` holds the failures since an identifier's last success, `inFlight` the logins that
      passed their block check and have no outcome yet. */
  datatype State = State(history: Failures, inFlight: map<Attempt, Identity>, now: Instant)

  datatype Event =
    | Check(attempt: Attempt, id: Identity, at: Instant)
    | Fail(attempt: Attempt, at: Instant)
    | Succeed(attempt: Attempt, at: Instant)
    | Abort(attempt: Attempt)

  const START := State(map[], map[], 0.0)

  predicate Blocked(p: Policy, history: seq<Instant>, at: Instant) {
    CountAfter(history, at - p.windowSeconds) >= p.maxFailures
  }

  predicate Enabled(s: State, e: Event) {
    match e
    case Check(a, _, at) => a !in s.inFlight && at >= s.now
    case Fail(a, at) => a in s.inFlight && at >= s.now
    case Succeed(a, at) => a in s.inFlight && at >= s.now
    case Abort(a) => a in s.inFlight
  }

  function Apply(p: Policy, s: State, e: Event): State
    requires Enabled(s, e)
  {
    match e
    case Check(a, id, at) =>
      if Blocked(p, Of(s.history, id), at) then s.(now := at)
      else s.(now := at, inFlight := s.inFlight[a := id])
    case Fail(a, at) =>
      var id := s.inFlight[a];
      State(s.history[id := Of(s.history, id) + [at]], s.inFlight - {a}, at)
    case Succeed(a, at) =>
      State(s.history - {s.inFlight[a]}, s.inFlight - {a}, at)
    case Abort(a) =>
      s.(inFlight := s.inFlight - {a})
  }

  predicate Runs(p: Policy, s: State, events: seq<Event>)
    decreases |events|, 0
  {
    events == [] ||
    (var most := events[..|events| - 1];
     Runs(p, s, most) && Enabled(Exec(p, s, most), events[|events| - 1]))
  }

  function Exec(p: Policy, s: State, events: seq<Event>): State
    requires Runs(p, s, events)
    decreases |events|, 1
  {
    if events == [] then s
    else
      var most := events[..|events| - 1];
      Apply(p, Exec(p, s, most), events[|events| - 1])
  }

  function Racing(inFlight: map<Attempt, Identity>, id: Identity): set<Attempt> {
    set a | a in inFlight && inFlight[a] == id
  }

  function InFlight(s: State, id: Identity): nat {
    |Racing(s.inFlight, id)|
  }

  /** At most `c` logins for the identifier are ever between their check and their outcome. */
  ghost predicate AtMost(p: Policy, events: seq<Event>, id: Identity, c: nat)
    requires Runs(p, START, events)
    decreases |events|
  {
    && InFlight(Exec(p, START, events), id) <= c
    && (events == [] || AtMost(p, events[..|events| - 1], id, c))
  }

  /** The failures at a time in `(from, to]`. */
  function CountIn(times: seq<Instant>, from: Instant, to: Instant): nat {
    if times == [] then 0
    else
      var t := times[|times| - 1];
      CountIn(times[..|times| - 1], from, to) + if from < t <= to then 1 else 0
  }

  // ----- counting -----

  lemma {:induction false} CountAntitone(times: seq<Instant>, a: Instant, b: Instant)
    requires a <= b
    ensures CountAfter(times, b) <= CountAfter(times, a)
  {
    if times == [] {
    } else {
      CountAntitone(times[..|times| - 1], a, b);
    }
  }

  lemma {:induction false} CountInAfter(times: seq<Instant>, from: Instant, to: Instant)
    ensures CountIn(times, from, to) <= CountAfter(times, from)
  {
    if times == [] {
    } else {
      CountInAfter(times[..|times| - 1], from, to);
    }
  }

  /** Within a window's length of each failure, the number of failures up to it is at most `bound`. */
  ghost predicate Peaks(times: seq<Instant>, window: real, bound: nat) {
    forall n | 0 < n <= |times| :: CountAfter(times[..n], times[n - 1] - window) <= bound
  }

  lemma PeaksSnoc(times: seq<Instant>, t: Instant, window: real, bound: nat)
    requires Peaks(times, window, bound)
    requires CountAfter(times + [t], t - window) <= bound
    ensures Peaks(times + [t], window, bound)
  {
    var all := times + [t];
    forall n | 0 < n <= |all| ensures CountAfter(all[..n], all[n - 1] - window) <= bound {
      if n <= |times| {
        assert all[..n] == times[..n];
      } else {
        assert all[..n] == all;
      }
    }
  }

  /** Bounded peaks bound every span of the window's length, wherever it starts. */
  lemma {:induction false} SpanBound(times: seq<Instant>, window: real, bound: nat, from: Instant)
    requires NonDecreasing(times) && Peaks(times, window, bound)
    ensures CountIn(times, from, from + window) <= bound
  {
    if times == [] {
    } else {
      var n := |times|;
      var most := times[..n - 1];
      if times[n - 1] <= from + window {
        assert times[..n] == times;
        CountInAfter(times, from, from + window);
        CountAntitone(times, times[n - 1] - window, from);
      } else {
        forall k | 0 < k <= |most| ensures CountAfter(most[..k], most[k - 1] - window) <= bound {
          assert most[..k] == times[..k];
        }
        SpanBound(most, window, bound, from);
      }
    }
  }

  // ----- the invariant of one identifier -----

  ghost predicate Contained(p: Policy, s: State, id: Identity, c: nat) {
    var h := Of(s.history, id);
    && NonDecreasing(h) && (forall i | 0 <= i < |h| :: h[i] <= s.now)
    && CountAfter(h, s.now - p.windowSeconds) + InFlight(s, id) <= p.maxFailures - 1 + c
    && Peaks(h, p.windowSeconds, p.maxFailures - 1 + c)
  }

  lemma RacingEnds(inFlight: map<Attempt, Identity>, a: Attempt, id: Identity)
    requires a in inFlight
    ensures |Racing(inFlight - {a}, id)| == |Racing(inFlight, id)| - if inFlight[a] == id then 1 else 0
  {
    var before := Racing(inFlight, id);
    if inFlight[a] == id {
      assert a in before && Racing(inFlight - {a}, id) == before - {a};
    } else {
      assert Racing(inFlight - {a}, id) == before;
    }
  }

  lemma RacingBegins(inFlight: map<Attempt, Identity>, a: Attempt, other: Identity, id: Identity)
    requires a !in inFlight && other != id
    ensures Racing(inFlight[a := other], id) == Racing(inFlight, id)
  {
  }

  lemma LaterKeepsContained(p: Policy, s: State, t: State, id: Identity, c: nat)
    requires Contained(p, s, id, c) && s.now <= t.now
    requires Of(t.history, id) == Of(s.history, id) && InFlight(t, id) <= InFlight(s, id)
    ensures Contained(p, t, id, c)
  {
    CountAntitone(Of(s.history, id), s.now - p.windowSeconds, t.now - p.windowSeconds);
  }

  lemma CheckKeepsContained(p: Policy, s: State, a: Attempt, id: Identity, at: Instant, c: nat)
    requires Sane(p) && Contained(p, s, id, c) && s.now <= at && a !in s.inFlight
    requires !Blocked(p, Of(s.history, id), at)
    requires InFlight(Apply(p, s, Check(a, id, at)), id) <= c
    ensures Contained(p, Apply(p, s, Check(a, id, at)), id, c)
  {
  }

  /** One failure more, now, is one login less under way. */
  lemma OneFailureMore(p: Policy, h: seq<Instant>, before: Instant, at: Instant, racing: nat, bound: nat)
    requires p.windowSeconds > 0.0 && before <= at && Peaks(h, p.windowSeconds, bound)
    requires CountAfter(h, before - p.windowSeconds) + racing <= bound && racing > 0
    ensures CountAfter(h + [at], at - p.windowSeconds) + racing - 1 <= bound
    ensures Peaks(h + [at], p.windowSeconds, bound)
  {
    CountAntitone(h, before - p.windowSeconds, at - p.windowSeconds);
    CountLast(h, at, at - p.windowSeconds);
    PeaksSnoc(h, at, p.windowSeconds, bound);
  }

  lemma FailKeepsContained(p: Policy, s: State, a: Attempt, at: Instant, c: nat)
    requires Sane(p) && a in s.inFlight && Contained(p, s, s.inFlight[a], c) && s.now <= at
    ensures Contained(p, Apply(p, s, Fail(a, at)), s.inFlight[a], c)
  {
    var id := s.inFlight[a];
    var h := Of(s.history, id);
    var t := Apply(p, s, Fail(a, at));
    RacingEnds(s.inFlight, a, id);
    UpdatedOf(s.history, id, h + [at]);
    assert Of(t.history, id) == h + [at];
    assert InFlight(s, id) > 0;
    OneFailureMore(p, h, s.now, at, InFlight(s, id), p.maxFailures - 1 + c);
  }

  lemma SucceedKeepsContained(p: Policy, s: State, a: Attempt, at: Instant, c: nat)
    requires Sane(p) && a in s.inFlight && s.now <= at
    requires InFlight(Apply(p, s, Succeed(a, at)), s.inFlight[a]) <= c
    ensures Contained(p, Apply(p, s, Succeed(a, at)), s.inFlight[a], c)
  {
  }

  lemma ApplyKeepsContained(p: Policy, s: State, e: Event, id: Identity, c: nat)
    requires Sane(p) && Enabled(s, e) && Contained(p, s, id, c)
    requires InFlight(Apply(p, s, e), id) <= c
    ensures Contained(p, Apply(p, s, e), id, c)
  {
    match e
    case Check(a, other, at) =>
      if Blocked(p, Of(s.history, other), at) {
        LaterKeepsContained(p, s, Apply(p, s, e), id, c);
      } else if other == id {
        CheckKeepsContained(p, s, a, id, at, c);
      } else {
        RacingBegins(s.inFlight, a, other, id);
        LaterKeepsContained(p, s, Apply(p, s, e), id, c);
      }
    case Fail(a, at) =>
      if s.inFlight[a] == id {
        FailKeepsContained(p, s, a, at, c);
      } else {
        RacingEnds(s.inFlight, a, id);
        UpdatedOf(s.history, s.inFlight[a], Of(s.history, s.inFlight[a]) + [at]);
        LaterKeepsContained(p, s, Apply(p, s, e), id, c);
      }
    case Succeed(a, at) =>
      if s.inFlight[a] == id {
        SucceedKeepsContained(p, s, a, at, c);
      } else {
        RacingEnds(s.inFlight, a, id);
        LaterKeepsContained(p, s, Apply(p, s, e), id, c);
      }
    case Abort(a) =>
      RacingEnds(s.inFlight, a, id);
      LaterKeepsContained(p, s, Apply(p, s, e), id, c);
  }

  lemma {:induction false} RunsKeepContained(p: Policy, events: seq<Event>, id: Identity, c: nat)
    requires Sane(p) && c > 0 && Runs(p, START, events) && AtMost(p, events, id, c)
    ensures Contained(p, Exec(p, START, events), id, c)
    decreases |events|
  {
    if events == [] {
      assert Racing(START.inFlight, id) == {};
    } else {
      var most := events[..|events| - 1];
      RunsKeepContained(p, most, id, c);
      ApplyKeepsContained(p, Exec(p, START, most), events[|events| - 1], id, c);
    }
  }

  /** With at most `c` racing logins, the failures since the last success number at most
      max_failures - 1 + c in every span of the window's length. */
  lemma GuessesBounded(p: Policy, events: seq<Event>, id: Identity, c: nat, from: Instant)
    requires Sane(p) && c > 0 && Runs(p, START, events) && AtMost(p, events, id, c)
    ensures CountIn(Of(Exec(p, START, events).history, id), from, from + p.windowSeconds) <= p.maxFailures - 1 + c
  {
    var h := Of(Exec(p, START, events).history, id);
    RunsKeepContained(p, events, id, c);
    SpanBound(h, p.windowSeconds, p.maxFailures - 1 + c, from);
  }

  // ----- the bound is reached -----

  /** The attempts below `n` on the identifier, all in flight. */
  function Flying(n: nat, id: Identity): map<Attempt, Identity> {
    if n == 0 then map[] else Flying(n - 1, id)[n - 1 := id]
  }

  lemma {:induction false} FlyingIs(n: nat, id: Identity)
    ensures forall a: Attempt :: a in Flying(n, id) <==> a < n
    ensures forall a: Attempt | a in Flying(n, id) :: Flying(n, id)[a] == id
    ensures n > 0 ==> Flying(n, id) - {n - 1} == Flying(n - 1, id)
  {
    if n == 0 {
    } else {
      FlyingIs(n - 1, id);
    }
  }

  function Zeros(n: nat): (r: seq<Instant>)
    ensures |r| == n
  {
    if n == 0 then [] else Zeros(n - 1) + [0.0]
  }

  lemma {:induction false} ZerosCount(n: nat, cutoff: Instant)
    requires cutoff < 0.0
    ensures CountAfter(Zeros(n), cutoff) == n && CountIn(Zeros(n), cutoff, 0.0) == n
  {
    if n == 0 {
    } else {
      ZerosCount(n - 1, cutoff);
      assert Zeros(n)[..n - 1] == Zeros(n - 1);
    }
  }

  /** What a run of the whole reaches: the state, and the number in flight on the way. */
  ghost predicate Reaches(p: Policy, events: seq<Event>, id: Identity, failures: nat, flying: nat, c: nat) {
    && Runs(p, START, events)
    && Exec(p, START, events).now == 0.0
    && Of(Exec(p, START, events).history, id) == Zeros(failures)
    && Exec(p, START, events).inFlight == Flying(flying, id)
    && AtMost(p, events, id, c)
  }

  lemma {:induction false} FlyingCount(n: nat, id: Identity)
    ensures |Racing(Flying(n, id), id)| == n
  {
    if n > 0 {
      FlyingCount(n - 1, id);
      FlyingIs(n, id);
      RacingEnds(Flying(n, id), n - 1, id);
    } else {
      assert Racing(Flying(0, id), id) == {};
    }
  }

  lemma CheckReaches(p: Policy, events: seq<Event>, id: Identity, failures: nat, n: nat, c: nat)
    requires Sane(p) && Reaches(p, events, id, failures, n, c) && failures < p.maxFailures && n < c
    ensures Reaches(p, events + [Check(n, id, 0.0)], id, failures, n + 1, c)
  {
    var all := events + [Check(n, id, 0.0)];
    assert all[..|all| - 1] == events;
    ZerosCount(failures, -p.windowSeconds);
    FlyingIs(n, id);
    FlyingCount(n + 1, id);
  }

  lemma FailReaches(p: Policy, events: seq<Event>, id: Identity, failures: nat, n: nat, c: nat)
    requires Sane(p) && Reaches(p, events, id, failures, n, c) && n > 0
    ensures Reaches(p, events + [Fail(n - 1, 0.0)], id, failures + 1, n - 1, c)
  {
    var all := events + [Fail(n - 1, 0.0)];
    assert all[..|all| - 1] == events;
    FlyingIs(n, id);
    FlyingCount(n, id);
    FlyingCount(n - 1, id);
  }

  /** `n` logins that each fail before the next begins. */
  lemma {:induction false} OneByOne(p: Policy, id: Identity, n: nat, c: nat) returns (events: seq<Event>)
    requires Sane(p) && c > 0 && n < p.maxFailures
    ensures Reaches(p, events, id, n, 0, c)
  {
    events := [];
    if n == 0 {
      FlyingCount(0, id);
    } else {
      var before := OneByOne(p, id, n - 1, c);
      CheckReaches(p, before, id, n - 1, 0, c);
      FailReaches(p, before + [Check(0, id, 0.0)], id, n - 1, 1, c);
      events := before + [Check(0, id, 0.0)] + [Fail(0, 0.0)];
    }
  }

  /** Then `n` checks with no outcome in between. */
  lemma {:induction false} Checks(p: Policy, id: Identity, n: nat, c: nat) returns (events: seq<Event>)
    requires Sane(p) && c > 0 && n <= c
    ensures Reaches(p, events, id, p.maxFailures - 1, n, c)
  {
    if n == 0 {
      events := OneByOne(p, id, p.maxFailures - 1, c);
    } else {
      var before := Checks(p, id, n - 1, c);
      CheckReaches(p, before, id, p.maxFailures - 1, n - 1, c);
      events := before + [Check(n - 1, id, 0.0)];
    }
  }

  /** Then `n` outcomes of those `c` racing logins, all failures. */
  lemma {:induction false} Fails(p: Policy, id: Identity, n: nat, c: nat) returns (events: seq<Event>)
    requires Sane(p) && c > 0 && n <= c
    ensures Reaches(p, events, id, p.maxFailures - 1 + n, c - n, c)
  {
    if n == 0 {
      events := Checks(p, id, c, c);
    } else {
      var before := Fails(p, id, n - 1, c);
      FailReaches(p, before, id, p.maxFailures - 1 + n - 1, c - n + 1, c);
      events := before + [Fail(c - n, 0.0)];
    }
  }

  /** The bound is exact: for every policy and every `c` some run reaches it. */
  lemma GuessesReached(p: Policy, id: Identity, c: nat)
    requires Sane(p) && c > 0
    ensures exists events ::
      && Runs(p, START, events) && AtMost(p, events, id, c)
      && CountIn(Of(Exec(p, START, events).history, id), -p.windowSeconds, 0.0) == p.maxFailures - 1 + c
  {
    var n, from := p.maxFailures - 1 + c, -p.windowSeconds;
    assert CountIn(Zeros(n), from, 0.0) == n by {
      ZerosCount(n, from);
    }
    var events := Fails(p, id, c, c);
    assert Of(Exec(p, START, events).history, id) == Zeros(n);
  }

  /** The failures recorded for the identifier in the window's length after `from`. */
  function Recorded(p: Policy, s: State, id: Identity, from: Instant): nat {
    CountIn(Of(s.history, id), from, from + p.windowSeconds)
  }

  /** No run with at most `c` racing logins records more failures in a window's length than configured. */
  ghost predicate MaximumHolds(p: Policy, id: Identity, c: nat) {
    forall events, from | Runs(p, START, events) && AtMost(p, events, id, c) ::
      Recorded(p, Exec(p, START, events), id, from) <= p.maxFailures
  }

  lemma RacingExceeds(p: Policy, id: Identity, c: nat)
    requires Sane(p) && c > 1
    ensures !MaximumHolds(p, id, c)
  {
    GuessesReached(p, id, c);
    var events :| && Runs(p, START, events) && AtMost(p, events, id, c)
                  && CountIn(Of(Exec(p, START, events).history, id), -p.windowSeconds, 0.0) == p.maxFailures - 1 + c;
    assert -p.windowSeconds + p.windowSeconds == 0.0;
    assert Recorded(p, Exec(p, START, events), id, -p.windowSeconds) > p.maxFailures;
  }

  lemma SequentialKeepsMaximum(p: Policy, id: Identity)
    requires Sane(p)
    ensures MaximumHolds(p, id, 1)
  {
    forall events, from | Runs(p, START, events) && AtMost(p, events, id, 1)
      ensures Recorded(p, Exec(p, START, events), id, from) <= p.maxFailures
    {
      GuessesBounded(p, events, id, 1, from);
    }
  }

  /** The configured maximum is one exactly when logins for an identifier do not race. */
  lemma MaximumHoldsExactly(p: Policy, id: Identity, c: nat)
    requires Sane(p) && c > 0
    ensures MaximumHolds(p, id, c) <==> c == 1
  {
    if c == 1 {
      SequentialKeepsMaximum(p, id);
    } else {
      RacingExceeds(p, id, c);
    }
  }

  // ----- the end of a block -----

  lemma LateTail(times: seq<Instant>, cutoff: Instant, n: nat)
    requires NonDecreasing(times) && n < |times| && times[n] > cutoff
    ensures CountAfter(times, cutoff) >= |times| - n
  {
    assert times == times[..n] + times[n..];
    CountSplit(times[..n], times[n..], cutoff);
    CountAll(times[n..], cutoff);
  }

  lemma EarlyHead(times: seq<Instant>, cutoff: Instant, n: nat)
    requires NonDecreasing(times) && n < |times| && times[n] <= cutoff
    ensures CountAfter(times, cutoff) < |times| - n
  {
    assert times == times[..n + 1] + times[n + 1..];
    CountSplit(times[..n + 1], times[n + 1..], cutoff);
    CountNone(times[..n + 1], cutoff);
  }

  /** The count after a cutoff reaches `k` exactly when the k-th newest time is after it. */
  lemma CountReaches(times: seq<Instant>, cutoff: Instant, k: nat)
    requires NonDecreasing(times) && 0 < k <= |times|
    ensures CountAfter(times, cutoff) >= k <==> times[|times| - k] > cutoff
  {
    if times[|times| - k] > cutoff {
      LateTail(times, cutoff, |times| - k);
    } else {
      EarlyHead(times, cutoff, |times| - k);
    }
  }

  /** A block lasts exactly until the max_failures-th newest failure leaves the window. */
  lemma BlockedExactly(p: Policy, history: seq<Instant>, at: Instant)
    requires Sane(p) && NonDecreasing(history)
    ensures Blocked(p, history, at) <==>
      |history| >= p.maxFailures && at < history[|history| - p.maxFailures] + p.windowSeconds
  {
    if |history| >= p.maxFailures {
      CountReaches(history, at - p.windowSeconds, p.maxFailures);
    }
  }

  /** Every login for the identifier in the run is turned away at its check. */
  ghost predicate AllRefused(p: Policy, s: State, events: seq<Event>, id: Identity)
    requires Runs(p, s, events)
    decreases |events|
  {
    events == [] ||
    (var most, e := events[..|events| - 1], events[|events| - 1];
     && AllRefused(p, s, most, id)
     && (e.Check? && e.id == id ==> Blocked(p, Of(Exec(p, s, most).history, id), e.at)))
  }

  lemma {:induction false} RefusalsRecordNothing(p: Policy, s: State, events: seq<Event>, id: Identity)
    requires Runs(p, s, events) && Racing(s.inFlight, id) == {} && AllRefused(p, s, events, id)
    ensures Of(Exec(p, s, events).history, id) == Of(s.history, id)
    ensures Racing(Exec(p, s, events).inFlight, id) == {}
    decreases |events|
  {
    if events == [] {
    } else {
      var most, e := events[..|events| - 1], events[|events| - 1];
      RefusalsRecordNothing(p, s, most, id);
      var t := Exec(p, s, most);
      match e {
        case Check(a, other, at) =>
        case Fail(a, at) =>
          assert a !in Racing(t.inFlight, id);
        case Succeed(a, at) =>
          assert a !in Racing(t.inFlight, id);
        case Abort(a) =>
      }
    }
  }

  /** However many refused logins arrive in between, the block is over no later than one window
      after the last recorded failure, and at exactly the moment it would have been without them. */
  lemma RefusalsDoNotProlongBlock(p: Policy, s: State, events: seq<Event>, id: Identity, at: Instant)
    requires Sane(p) && Runs(p, s, events) && Racing(s.inFlight, id) == {} && AllRefused(p, s, events, id)
    requires NonDecreasing(Of(s.history, id))
    ensures Blocked(p, Of(Exec(p, s, events).history, id), at) == Blocked(p, Of(s.history, id), at)
    ensures var h := Of(s.history, id);
      h == [] || at >= h[|h| - 1] + p.windowSeconds ==> !Blocked(p, Of(Exec(p, s, events).history, id), at)
  {
    RefusalsRecordNothing(p, s, events, id);
    BlockedExactly(p, Of(s.history, id), at);
  }
}
