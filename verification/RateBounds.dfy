/** What the fixed-window limiter admits over whole runs of calls at non-decreasing times. */
module RateBounds {
  import opened Prelude
  import opened RateLimiting

  /** The limiter after calls at `times`. */
  function After(times: seq<Instant>, seconds: real): Window {
    if times == [] then FRESH else Tick(After(times[..|times| - 1], seconds), seconds, times[|times| - 1])
  }

  /** Whether the last of the calls was admitted. */
  predicate Admitted(times: seq<Instant>, seconds: real, max: nat)
    requires times != []
  {
    After(times, seconds).count <= max
  }

  /** How many of the calls in [from, to) were admitted. */
  function AdmittedIn(times: seq<Instant>, seconds: real, max: nat, from: Instant, to: Instant): nat {
    if times == [] then 0
    else
      AdmittedIn(times[..|times| - 1], seconds, max, from, to)
      + if from <= times[|times| - 1] < to && Admitted(times, seconds, max) then 1 else 0
  }

  // ---------------------------------------------------------------- at most (k+1) windows' worth

  /** How far the windows opened since `from` have advanced: `j` of them lie behind the current one. */
  predicate Advanced(w: Window, seconds: real, max: nat, from: Instant, admitted: nat, j: nat) {
    if w.startedAt < from then j == 0 && admitted <= Min(w.count, max)
    else w.startedAt >= from + j as real * seconds && admitted <= (j + 1) * max + Min(w.count, max)
  }

  lemma {:induction false} NoneBefore(times: seq<Instant>, seconds: real, max: nat, from: Instant, to: Instant)
    requires forall i | 0 <= i < |times| :: times[i] < from
    ensures AdmittedIn(times, seconds, max, from, to) == 0
  {
    if times == [] {
    } else {
      NoneBefore(times[..|times| - 1], seconds, max, from, to);
    }
  }

  lemma Distribute(j: nat, seconds: real, max: nat)
    ensures (j + 1) as real * seconds == j as real * seconds + seconds
    ensures (j + 2) * max == (j + 1) * max + max
  {
  }

  /** A new window leaves the current one behind; the call that opens it is admitted. */
  lemma NextWindow(w: Window, seconds: real, max: nat, from: Instant, admitted: nat, j: nat, now: Instant)
    requires Advanced(w, seconds, max, from, admitted, j) && now >= from && now - w.startedAt >= seconds
    ensures Advanced(Window(now, 1), seconds, max, from, admitted + Min(1, max),
                     if w.startedAt < from then 0 else j + 1)
  {
    if w.startedAt >= from {
      Distribute(j, seconds, max);
    }
  }

  lemma SameWindow(w: Window, seconds: real, max: nat, from: Instant, admitted: nat, j: nat)
    requires Advanced(w, seconds, max, from, admitted, j)
    ensures Advanced(w.(count := w.count + 1), seconds, max, from, admitted + (if w.count + 1 <= max then 1 else 0), j)
    ensures Advanced(w.(count := w.count + 1), seconds, max, from, admitted, j)
  {
  }

  /** Windows start at least `seconds` apart, and each admits at most `max`. */
  lemma {:induction false} WindowsAdvance(times: seq<Instant>, seconds: real, max: nat, from: Instant, to: Instant)
    returns (j: nat)
    requires seconds > 0.0 && NonDecreasing(times)
    requires forall i | 0 <= i < |times| :: times[i] < to
    ensures Advanced(After(times, seconds), seconds, max, from, AdmittedIn(times, seconds, max, from, to), j)
    ensures j == 0 || (times != [] && After(times, seconds).startedAt <= times[|times| - 1])
  {
    if times == [] {
      return 0;
    }
    var init, now := times[..|times| - 1], times[|times| - 1];
    var i := WindowsAdvance(init, seconds, max, from, to);
    var w, admitted := After(init, seconds), AdmittedIn(init, seconds, max, from, to);
    if now - w.startedAt < seconds {
      SameWindow(w, seconds, max, from, admitted, i);
      j := i;
    } else if now < from {
      NoneBefore(times, seconds, max, from, to);
      j := 0;
    } else {
      NextWindow(w, seconds, max, from, admitted, i, now);
      j := if w.startedAt < from then 0 else i + 1;
    }
  }

  /** The calls before `to` come first. */
  lemma {:induction false} LateCallsDoNotCount(times: seq<Instant>, seconds: real, max: nat, from: Instant, to: Instant)
    returns (early: seq<Instant>)
    requires NonDecreasing(times)
    ensures early <= times && forall i | 0 <= i < |early| :: early[i] < to
    ensures AdmittedIn(times, seconds, max, from, to) == AdmittedIn(early, seconds, max, from, to)
  {
    if times == [] || times[|times| - 1] < to {
      early := times;
    } else {
      early := LateCallsDoNotCount(times[..|times| - 1], seconds, max, from, to);
    }
  }

  lemma Smaller(j: nat, k: nat, seconds: real)
    requires seconds > 0.0
    ensures j as real * seconds < k as real * seconds ==> j < k
  {
    if j >= k {
      assert j as real * seconds - k as real * seconds == (j as real - k as real) * seconds;
    }
  }

  lemma Scale(a: nat, b: nat, max: nat)
    ensures a <= b ==> a * max <= b * max
  {
    if a <= b {
      assert b * max - a * max == (b - a) * max;
    }
  }

  /** `j` windows lie before `to`, so fewer than `k`. */
  lemma FewWindows(w: Window, seconds: real, max: nat, from: Instant, admitted: nat, j: nat, k: nat)
    requires seconds > 0.0 && k >= 1 && Advanced(w, seconds, max, from, admitted, j)
    requires j == 0 || w.startedAt < from + k as real * seconds
    ensures admitted <= (j + 2) * max && j + 2 <= k + 1
  {
    assert (j + 2) * max == (j + 1) * max + max;
    if w.startedAt >= from && j > 0 {
      Smaller(j, k, seconds);
    }
  }

  /** Any half-open interval of `k` window lengths admits at most (k + 1) * max calls. */
  lemma AdmissionBound(times: seq<Instant>, seconds: real, max: nat, from: Instant, k: nat)
    requires seconds > 0.0 && NonDecreasing(times) && k >= 1
    ensures AdmittedIn(times, seconds, max, from, from + k as real * seconds) <= (k + 1) * max
  {
    var to := from + k as real * seconds;
    var early := LateCallsDoNotCount(times, seconds, max, from, to);
    var j := WindowsAdvance(early, seconds, max, from, to);
    var admitted := AdmittedIn(early, seconds, max, from, to);
    FewWindows(After(early, seconds), seconds, max, from, admitted, j, k);
    Scale(j + 2, k + 1, max);
  }

  // ---------------------------------------------------------------- the bound is reached

  /** `max` calls half-way through the limiter's first window, then `max` as it ends. */
  function Burst(max: nat, seconds: real): seq<Instant> {
    seq(2 * max, i requires 0 <= i < 2 * max => if i < max then seconds / 2.0 else seconds)
  }

  lemma {:induction false} BurstAdmitted(max: nat, seconds: real, n: nat)
    requires seconds > 0.0 && n <= 2 * max
    ensures After(Burst(max, seconds)[..n], seconds) == if n <= max then Window(0.0, n) else Window(seconds, n - max)
    ensures AdmittedIn(Burst(max, seconds)[..n], seconds, max, seconds / 2.0, seconds / 2.0 + seconds) == n
  {
    if n == 0 {
    } else {
      BurstAdmitted(max, seconds, n - 1);
      var prefix := Burst(max, seconds)[..n];
      assert prefix[..|prefix| - 1] == Burst(max, seconds)[..n - 1];
    }
  }

  /** A single window length can see twice `max` calls admitted, for every limit: the bound is tight,
      and the configured limit holds of the limiter's own windows only. */
  lemma TwiceTheLimit(max: nat, seconds: real)
    requires seconds > 0.0
    ensures NonDecreasing(Burst(max, seconds))
    ensures AdmittedIn(Burst(max, seconds), seconds, max, seconds / 2.0, seconds / 2.0 + 1.0 * seconds) == 2 * max
  {
    BurstAdmitted(max, seconds, 2 * max);
    assert Burst(max, seconds)[..2 * max] == Burst(max, seconds);
    assert 1.0 * seconds == seconds;
  }

  // ---------------------------------------------------------------- when one window's length keeps to the limit

  /** The calls continue `before`, the later ones from `from` on. */
  ghost predicate Continues(before: seq<Instant>, all: seq<Instant>, from: Instant) {
    before <= all && NonDecreasing(all) && forall i | |before| <= i < |all| :: from <= all[i]
  }

  /** However the calls go on from `from`, one window's length sees no more than the limit admitted. */
  ghost predicate KeepsToLimit(before: seq<Instant>, seconds: real, max: nat, from: Instant) {
    forall all: seq<Instant> | Continues(before, all, from) ::
      AdmittedIn(all, seconds, max, from, from + seconds) <= max
  }

  /** At `from` the current window is over, or used up, or itself begins no earlier. */
  predicate Spent(w: Window, seconds: real, max: nat, from: Instant) {
    from >= w.startedAt + seconds || w.count >= max || w.startedAt >= from
  }

  /** What `admitted` calls since `from`, the last at `last`, say about the window they leave. */
  predicate Held(w: Window, seconds: real, max: nat, from: Instant, admitted: nat, last: Instant) {
    if w.startedAt < from then admitted == 0 && Spent(w, seconds, max, from)
    else admitted <= Min(w.count, max) || (admitted <= max && last >= from + seconds)
  }

  lemma HeldNext(w: Window, seconds: real, max: nat, from: Instant, admitted: nat, last: Instant, now: Instant)
    requires seconds > 0.0 && Held(w, seconds, max, from, admitted, last)
    requires now >= last && now >= from
    ensures var w' := Tick(w, seconds, now);
            Held(w', seconds, max, from, admitted + if now < from + seconds && w'.count <= max then 1 else 0, now)
  {
  }

  lemma {:induction false} SpentIsHeld(before: seq<Instant>, all: seq<Instant>, seconds: real, max: nat, from: Instant)
    requires seconds > 0.0 && Continues(before, all, from) && Spent(After(before, seconds), seconds, max, from)
    requires AdmittedIn(before, seconds, max, from, from + seconds) == 0
    ensures Held(After(all, seconds), seconds, max, from, AdmittedIn(all, seconds, max, from, from + seconds),
                 if |all| == |before| then from else all[|all| - 1])
    decreases |all|
  {
    if |all| == |before| {
      assert all == before;
    } else {
      var n := |all| - 1;
      var most, to := all[..n], from + seconds;
      SpentIsHeld(before, most, seconds, max, from);
      HeldNext(After(most, seconds), seconds, max, from, AdmittedIn(most, seconds, max, from, to),
               if n == |before| then from else most[n - 1], all[n]);
    }
  }

  /** A call at `from`, then `n` as the current window ends. */
  function Straddle(before: seq<Instant>, from: Instant, end: Instant, n: nat): seq<Instant> {
    if n == 0 then before + [from] else Straddle(before, from, end, n - 1) + [end]
  }

  lemma {:induction false} StraddleContinues(before: seq<Instant>, from: Instant, end: Instant, n: nat)
    requires NonDecreasing(before) && (forall i | 0 <= i < |before| :: before[i] < from) && from < end
    ensures var all := Straddle(before, from, end, n);
            Continues(before, all, from) && (forall i | 0 <= i < |all| :: all[i] <= end)
  {
    if n == 0 {
    } else {
      StraddleContinues(before, from, end, n - 1);
    }
  }

  lemma OneMoreCall(times: seq<Instant>, now: Instant, seconds: real, max: nat, from: Instant, to: Instant)
    ensures After(times + [now], seconds) == Tick(After(times, seconds), seconds, now)
    ensures AdmittedIn(times + [now], seconds, max, from, to)
            == AdmittedIn(times, seconds, max, from, to)
               + if from <= now < to && After(times + [now], seconds).count <= max then 1 else 0
  {
    assert (times + [now])[..|times|] == times;
  }

  lemma {:induction false} StraddleAdmits(
      before: seq<Instant>, w: Window, seconds: real, max: nat, from: Instant, n: nat)
    requires seconds > 0.0 && n <= max && w == After(before, seconds) && !Spent(w, seconds, max, from)
    requires AdmittedIn(before, seconds, max, from, from + seconds) == 0
    ensures var all := Straddle(before, from, w.startedAt + seconds, n);
            && After(all, seconds)
                == (if n == 0 then Window(w.startedAt, w.count + 1) else Window(w.startedAt + seconds, n))
            && AdmittedIn(all, seconds, max, from, from + seconds) == n + 1
  {
    var end, to := w.startedAt + seconds, from + seconds;
    if n == 0 {
      OneMoreCall(before, from, seconds, max, from, to);
    } else {
      var most := Straddle(before, from, end, n - 1);
      StraddleAdmits(before, w, seconds, max, from, n - 1);
      OneMoreCall(most, end, seconds, max, from, to);
    }
  }

  lemma SpentKeepsToLimit(before: seq<Instant>, seconds: real, max: nat, from: Instant)
    requires seconds > 0.0 && Spent(After(before, seconds), seconds, max, from)
    requires AdmittedIn(before, seconds, max, from, from + seconds) == 0
    ensures KeepsToLimit(before, seconds, max, from)
  {
    forall all: seq<Instant> | Continues(before, all, from)
      ensures AdmittedIn(all, seconds, max, from, from + seconds) <= max
    {
      SpentIsHeld(before, all, seconds, max, from);
    }
  }

  /** Exactly when one window's length from `from` on keeps to the limit, whatever calls come. */
  lemma WithinLimitExactly(before: seq<Instant>, seconds: real, max: nat, from: Instant)
    requires seconds > 0.0 && NonDecreasing(before)
    requires forall i | 0 <= i < |before| :: before[i] < from
    ensures KeepsToLimit(before, seconds, max, from) <==> Spent(After(before, seconds), seconds, max, from)
  {
    NoneBefore(before, seconds, max, from, from + seconds);
    if Spent(After(before, seconds), seconds, max, from) {
      SpentKeepsToLimit(before, seconds, max, from);
    } else {
      var w := After(before, seconds);
      var all := Straddle(before, from, w.startedAt + seconds, max);
      StraddleContinues(before, from, w.startedAt + seconds, max);
      StraddleAdmits(before, w, seconds, max, from, max);
      assert Continues(before, all, from) && AdmittedIn(all, seconds, max, from, from + seconds) == max + 1;
    }
  }

  // ---------------------------------------------------------------- refused traffic

  /** The calls of the current window are the last `count`; the one that opened it, if any did, gave
      it its start, and the first `max` of them are the admitted ones. */
  lemma {:induction false} WindowIsSuffix(times: seq<Instant>, seconds: real, max: nat)
    requires seconds > 0.0
    ensures var w := After(times, seconds);
            && w.count <= |times|
            && (w.count < |times| ==> w.count > 0 && times[|times| - w.count] == w.startedAt)
            && (forall n | |times| - w.count < n <= |times| ::
                  && After(times[..n], seconds).startedAt == w.startedAt
                  && (Admitted(times[..n], seconds, max) <==> n - (|times| - w.count) <= max))
  {
    if times == [] {
    } else {
      var init, now := times[..|times| - 1], times[|times| - 1];
      WindowIsSuffix(init, seconds, max);
      assert times[..|times|] == times;
      forall n | 0 <= n <= |init| ensures init[..n] == times[..n] {
      }
    }
  }

  /** However many calls a window refuses, they do not prolong it: the first call at its end or later
      is admitted. */
  lemma {:induction false} RefusalsDoNotProlong(
      times: seq<Instant>, more: seq<Instant>, seconds: real, max: nat, now: Instant)
    requires seconds > 0.0 && max > 0
    requires forall i | 0 <= i < |more| :: more[i] < After(times, seconds).startedAt + seconds
    requires now >= After(times, seconds).startedAt + seconds
    ensures After(times + more, seconds).startedAt == After(times, seconds).startedAt
    ensures Admitted(times + more + [now], seconds, max)
    decreases |more|
  {
    assert (times + more + [now])[..|times + more|] == times + more;
    if more == [] {
      assert times + more == times;
    } else {
      var n := |more| - 1;
      RefusalsDoNotProlong(times, more[..n], seconds, max, now);
      assert (times + more)[..|times + more| - 1] == times + more[..n];
    }
  }
}
