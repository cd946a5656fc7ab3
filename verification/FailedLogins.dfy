/** The per-account failure tracker (server/app/auth/rate_limit.py). */
module FailedLogins {
  import opened Prelude

  type Failures = map<Identity, seq<Instant>>

  function Of(f: Failures, id: Identity): seq<Instant> {
    if id in f then f[id] else []
  }

  /** How many of the times are later than `cutoff`: what the tracker is meant to count. */
  function CountAfter(times: seq<Instant>, cutoff: Instant): (n: nat)
    ensures n <= |times|
  {
    if times == [] then 0
    else CountAfter(times[..|times| - 1], cutoff) + if times[|times| - 1] > cutoff then 1 else 0
  }

  /** What is left of a deque when the expired entries have been popped from its left end. */
  function Pruned(window: seq<Instant>, cutoff: Instant): seq<Instant> {
    if window != [] && window[0] <= cutoff then Pruned(window[1..], cutoff) else window
  }

  /** `window` is what lazy pruning has left of the full history: only entries no later than
      `cutoff` are missing. */
  predicate Remains(window: seq<Instant>, history: seq<Instant>, cutoff: Instant) {
    && |window| <= |history|
    && window == history[|history| - |window|..]
    && (forall i | 0 <= i < |history| - |window| :: history[i] <= cutoff)
  }

  lemma {:induction false} CountSplit(a: seq<Instant>, b: seq<Instant>, cutoff: Instant)
    ensures CountAfter(a + b, cutoff) == CountAfter(a, cutoff) + CountAfter(b, cutoff)
  {
    if b == [] {
      assert a + b == a;
    } else {
      assert (a + b)[..|a + b| - 1] == a + b[..|b| - 1];
      CountSplit(a, b[..|b| - 1], cutoff);
    }
  }

  lemma {:induction false} CountNone(times: seq<Instant>, cutoff: Instant)
    requires forall i | 0 <= i < |times| :: times[i] <= cutoff
    ensures CountAfter(times, cutoff) == 0
  {
    if times == [] {
    } else {
      CountNone(times[..|times| - 1], cutoff);
    }
  }

  lemma {:induction false} CountAll(times: seq<Instant>, cutoff: Instant)
    requires forall i | 0 <= i < |times| :: times[i] > cutoff
    ensures CountAfter(times, cutoff) == |times|
  {
    if times == [] {
    } else {
      CountAll(times[..|times| - 1], cutoff);
    }
  }

  lemma LiveCounts(window: seq<Instant>, history: seq<Instant>, cutoff: Instant)
    requires NonDecreasing(history) && Remains(window, history, cutoff)
    requires window == [] || window[0] > cutoff
    ensures |window| == CountAfter(history, cutoff)
  {
    var n := |history| - |window|;
    assert history == history[..n] + window;
    CountSplit(history[..n], window, cutoff);
    CountNone(history[..n], cutoff);
    forall i | 0 <= i < |window| ensures window[i] > cutoff {
      assert window[0] == history[n] && window[i] == history[n + i];
    }
    CountAll(window, cutoff);
  }

  lemma PopRemains(window: seq<Instant>, history: seq<Instant>, cutoff: Instant)
    requires Remains(window, history, cutoff) && window != [] && window[0] <= cutoff
    ensures Remains(window[1..], history, cutoff)
  {
    var n := |history| - |window|;
    assert window[0] == history[n] && window[1..] == history[n + 1..];
  }

  /** Pruning at a later cutoff keeps the window a remainder of the history, with exactly as many
      entries as the history has after the cutoff. */
  lemma {:induction false} PrunedCounts(window: seq<Instant>, history: seq<Instant>, cutoff: Instant)
    requires NonDecreasing(history) && Remains(window, history, cutoff)
    ensures Remains(Pruned(window, cutoff), history, cutoff)
    ensures |Pruned(window, cutoff)| == CountAfter(history, cutoff)
    decreases |window|
  {
    if window != [] && window[0] <= cutoff {
      PopRemains(window, history, cutoff);
      PrunedCounts(window[1..], history, cutoff);
    } else {
      LiveCounts(window, history, cutoff);
    }
  }

  /** At `now`, `window` is what the tracker may hold for a history of failures. */
  predicate Tracks(window: seq<Instant>, history: seq<Instant>, now: Instant, seconds: real) {
    && NonDecreasing(history)
    && (forall i | 0 <= i < |history| :: history[i] <= now)
    && Remains(window, history, now - seconds)
  }

  lemma TracksLater(window: seq<Instant>, history: seq<Instant>, before: Instant, now: Instant, seconds: real)
    requires Tracks(window, history, before, seconds) && before <= now
    ensures Tracks(window, history, now, seconds)
  {
  }

  lemma TracksFailure(window: seq<Instant>, history: seq<Instant>, now: Instant, seconds: real)
    requires Tracks(window, history, now, seconds)
    ensures Tracks(window + [now], history + [now], now, seconds)
  {
    var n := |history| - |window|;
    assert (history + [now])[n..] == window + [now];
  }

  /** Every identifier's deque is what pruning may leave of its history, and none is kept empty. */
  ghost predicate AllTracked(failures: Failures, history: Failures, now: Instant, seconds: real) {
    && (forall id | id in failures :: failures[id] != [])
    && (forall id :: Tracks(Of(failures, id), Of(history, id), now, seconds))
  }

  /** An emptied deque is dropped from the dictionary. */
  function Stored(failures: Failures, id: Identity, window: seq<Instant>): Failures {
    if window == [] then failures - {id} else failures[id := window]
  }

  lemma StoredOf(failures: Failures, id: Identity, window: seq<Instant>)
    ensures Of(Stored(failures, id, window), id) == window
    ensures forall k | k != id :: Of(Stored(failures, id, window), k) == Of(failures, k)
  {
  }

  lemma PrunedTracks(window: seq<Instant>, history: seq<Instant>, before: Instant, now: Instant, seconds: real)
    requires Tracks(window, history, before, seconds) && before <= now
    ensures Tracks(Pruned(window, now - seconds), history, now, seconds)
    ensures |Pruned(window, now - seconds)| == CountAfter(history, now - seconds)
  {
    TracksLater(window, history, before, now, seconds);
    PrunedCounts(window, history, now - seconds);
  }

  lemma PruneKeepsTracked(
      failures: Failures, history: Failures, before: Instant, now: Instant, seconds: real, id: Identity)
    requires AllTracked(failures, history, before, seconds) && before <= now
    ensures AllTracked(Stored(failures, id, Pruned(Of(failures, id), now - seconds)), history, now, seconds)
    ensures |Pruned(Of(failures, id), now - seconds)| == CountAfter(Of(history, id), now - seconds)
  {
    var window := Pruned(Of(failures, id), now - seconds);
    var f := Stored(failures, id, window);
    PrunedTracks(Of(failures, id), Of(history, id), before, now, seconds);
    StoredOf(failures, id, window);
    forall k ensures Tracks(Of(f, k), Of(history, k), now, seconds) {
      if k != id {
        TracksLater(Of(failures, k), Of(history, k), before, now, seconds);
      }
    }
  }

  lemma UpdatedOf(failures: Failures, id: Identity, window: seq<Instant>)
    ensures Of(failures[id := window], id) == window
    ensures forall k | k != id :: Of(failures[id := window], k) == Of(failures, k)
  {
  }

  lemma FailureKeepsTracked(failures: Failures, history: Failures, now: Instant, seconds: real, id: Identity)
    requires AllTracked(failures, history, now, seconds)
    ensures AllTracked(failures[id := Of(failures, id) + [now]], history[id := Of(history, id) + [now]], now, seconds)
  {
    var w, h := Of(failures, id) + [now], Of(history, id) + [now];
    var f, g := failures[id := w], history[id := h];
    UpdatedOf(failures, id, w);
    UpdatedOf(history, id, h);
    assert Tracks(Of(failures, id), Of(history, id), now, seconds);
    TracksFailure(Of(failures, id), Of(history, id), now, seconds);
    forall k ensures Tracks(Of(f, k), Of(g, k), now, seconds) {
      if k != id {
        assert Tracks(Of(failures, k), Of(history, k), now, seconds);
      }
    }
  }

  lemma CountLast(times: seq<Instant>, t: Instant, cutoff: Instant)
    ensures CountAfter(times + [t], cutoff) == CountAfter(times, cutoff) + if t > cutoff then 1 else 0
  {
    assert (times + [t])[..|times|] == times;
  }

  lemma FailureCounts(
      failures: Failures, history: Failures, window: seq<Instant>, now: Instant, seconds: real, id: Identity)
    requires |window| == CountAfter(Of(history, id), now - seconds)
    ensures seconds > 0.0 ==>
              |window| + 1 == CountAfter(Of(history[id := Of(history, id) + [now]], id), now - seconds)
    ensures forall k | k != id :: Of(failures[id := window + [now]], k) == Of(failures, k)
  {
    CountLast(Of(history, id), now, now - seconds);
    UpdatedOf(failures, id, window + [now]);
  }

  lemma ResetKeepsTracked(failures: Failures, history: Failures, now: Instant, seconds: real, id: Identity)
    requires AllTracked(failures, history, now, seconds)
    ensures AllTracked(failures - {id}, history - {id}, now, seconds)
  {
    forall k ensures Tracks(Of(failures - {id}, k), Of(history - {id}, k), now, seconds) {
      assert Tracks(Of(failures, k), Of(history, k), now, seconds);
    }
  }

  /** The `while … popleft()` loop. */
  method PopExpired(queue: seq<Instant>, cutoff: Instant) returns (window: seq<Instant>)
    ensures window == Pruned(queue, cutoff)
  {
    window := queue;
    while window != [] && window[0] <= cutoff
      invariant Pruned(window, cutoff) == Pruned(queue, cutoff)
      decreases |window|
    {
      window := window[1..];
    }
  }

  class FailedLoginTracker {
    const maxFailures: nat
    const windowSeconds: real
    var failures: Failures

    ghost var history: Failures  // every failure since the identifier's last reset
    ghost var lastCall: Instant  // no later than any future call

    ghost predicate Valid()
      reads this
    {
      AllTracked(failures, history, lastCall, windowSeconds)
    }

    constructor (maxFailures: nat, windowSeconds: real)
      ensures Valid() && history == map[]
      ensures this.maxFailures == maxFailures && this.windowSeconds == windowSeconds
    {
      this.maxFailures := maxFailures;
      this.windowSeconds := windowSeconds;
      failures, history, lastCall := map[], map[], 0.0;
    }

    method Prune(identifier: Identity, now: Instant) returns (window: seq<Instant>)
      requires Valid() && now >= lastCall
      modifies this`failures, this`lastCall
      ensures Valid() && lastCall == now
      ensures window == Of(failures, identifier)
      ensures |window| == CountAfter(Of(history, identifier), now - windowSeconds)
      ensures forall id | id != identifier :: Of(failures, id) == Of(old(failures), id)
    {
      window := PopExpired(Of(failures, identifier), now - windowSeconds);
      PruneKeepsTracked(failures, history, lastCall, now, windowSeconds, identifier);
      StoredOf(failures, identifier, window);
      failures := Stored(failures, identifier, window);
      lastCall := now;
    }

    method IsBlocked(identifier: Identity, now: Instant) returns (blocked: bool)
      requires Valid() && now >= lastCall
      modifies this`failures, this`lastCall
      ensures Valid() && lastCall == now
      ensures blocked <==> CountAfter(Of(history, identifier), now - windowSeconds) >= maxFailures
      ensures forall id | id != identifier :: Of(failures, id) == Of(old(failures), id)
    {
      var window := Prune(identifier, now);
      return |window| >= maxFailures;
    }

    method RecordFailure(identifier: Identity, now: Instant) returns (count: nat)
      requires Valid() && now >= lastCall
      modifies this`failures, this`history, this`lastCall
      ensures Valid() && lastCall == now
      ensures history == old(history)[identifier := Of(old(history), identifier) + [now]]
      ensures windowSeconds > 0.0 ==> count == CountAfter(Of(history, identifier), now - windowSeconds)
      ensures forall id | id != identifier :: Of(failures, id) == Of(old(failures), id)
    {
      var window := Prune(identifier, now);
      FailureKeepsTracked(failures, history, now, windowSeconds, identifier);
      FailureCounts(failures, history, window, now, windowSeconds, identifier);
      failures := failures[identifier := window + [now]];
      history := history[identifier := Of(history, identifier) + [now]];
      count := |window| + 1;
    }

    method Reset(identifier: Identity)
      requires Valid()
      modifies this`failures, this`history
      ensures Valid() && history == old(history) - {identifier}
      ensures identifier !in failures
      ensures forall id | id != identifier :: Of(failures, id) == Of(old(failures), id)
    {
      ResetKeepsTracked(failures, history, lastCall, windowSeconds, identifier);
      failures := failures - {identifier};
      history := history - {identifier};
    }

    method FailureCount(identifier: Identity, now: Instant) returns (count: nat)
      requires Valid() && now >= lastCall
      modifies this`failures, this`lastCall
      ensures Valid() && lastCall == now
      ensures count == CountAfter(Of(history, identifier), now - windowSeconds)
      ensures forall id | id != identifier :: Of(failures, id) == Of(old(failures), id)
    {
      var window := Prune(identifier, now);
      count := |window|;
    }
  }
}
