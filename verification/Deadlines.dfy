/**
 How long the receive loop waits (server/app/websocket/endpoint.py:360-380). Every frame arms the timeout
 anew, so the deadline for authenticating is one for the next frame.
 */
module Deadlines {
  import opened Prelude

  datatype Timeouts = Timeouts(unauthenticated: real, idle: real)

  /** A frame, when it arrives, and whether it authenticates the connection. */
  datatype Arrival = Arrival(at: Instant, authenticates: bool)

  function Wait(t: Timeouts, authenticated: bool): real {
    if authenticated then t.idle else t.unauthenticated
  }

  function Later(a: Instant, b: Instant): Instant {
    if a < b then b else a
  }

  /** The moment the loop ends by its timeout, when it begins to wait at `armed` and these frames come. A
      frame that has come by then is served at once, and one in time when it comes. */
  function ExpiresAt(t: Timeouts, armed: Instant, authenticated: bool, arrivals: seq<Arrival>): Instant
    decreases |arrivals|
  {
    if arrivals == [] || arrivals[0].at >= armed + Wait(t, authenticated) then armed + Wait(t, authenticated)
    else ExpiresAt(t, Later(armed, arrivals[0].at), authenticated || arrivals[0].authenticates, arrivals[1..])
  }

  /** The loop itself. */
  method ReceiveLoop(t: Timeouts, start: Instant, arrivals: seq<Arrival>) returns (closed: Instant)
    ensures closed == ExpiresAt(t, start, false, arrivals)
  {
    var authenticated, armed, i := false, start, 0;
    assert arrivals[0..] == arrivals;
    while i < |arrivals| && arrivals[i].at < armed + Wait(t, authenticated)
      invariant 0 <= i <= |arrivals|
      invariant ExpiresAt(t, armed, authenticated, arrivals[i..]) == ExpiresAt(t, start, false, arrivals)
    {
      assert arrivals[i..][1..] == arrivals[i + 1..];
      armed := Later(armed, arrivals[i].at);
      authenticated := authenticated || arrivals[i].authenticates;
      i := i + 1;
    }
    closed := armed + Wait(t, authenticated);
  }

  predicate Unauthenticated(arrivals: seq<Arrival>) {
    forall i | 0 <= i < |arrivals| :: !arrivals[i].authenticates
  }

  predicate Chronological(arrivals: seq<Arrival>) {
    forall i, j | 0 <= i < j < |arrivals| :: arrivals[i].at <= arrivals[j].at
  }

  lemma {:induction false} NotBefore(t: Timeouts, armed: Instant, arrivals: seq<Arrival>)
    requires t.unauthenticated > 0.0 && Unauthenticated(arrivals)
    ensures ExpiresAt(t, armed, false, arrivals) >= armed + t.unauthenticated
    decreases |arrivals|
  {
    if arrivals == [] || arrivals[0].at >= armed + t.unauthenticated {
    } else {
      NotBefore(t, Later(armed, arrivals[0].at), arrivals[1..]);
    }
  }

  /** A connection that does not authenticate is closed within the timeout exactly if no frame of it comes
      before the timeout is over. */
  lemma {:induction false} DeadlineHoldsExactly(t: Timeouts, start: Instant, arrivals: seq<Arrival>)
    requires t.unauthenticated > 0.0 && Unauthenticated(arrivals) && Chronological(arrivals)
    ensures ExpiresAt(t, start, false, arrivals) <= start + t.unauthenticated <==>
            forall i | 0 <= i < |arrivals| :: arrivals[i].at <= start || arrivals[i].at >= start + t.unauthenticated
    decreases |arrivals|
  {
    if arrivals == [] || arrivals[0].at >= start + t.unauthenticated {
    } else if arrivals[0].at > start {
      NotBefore(t, arrivals[0].at, arrivals[1..]);
    } else {
      DeadlineHoldsExactly(t, start, arrivals[1..]);
      assert forall i | 1 <= i < |arrivals| :: arrivals[1..][i - 1] == arrivals[i];
    }
  }

  lemma {:induction false} NotBeforeIdle(t: Timeouts, armed: Instant, arrivals: seq<Arrival>)
    requires t.idle > 0.0
    ensures ExpiresAt(t, armed, true, arrivals) >= armed + t.idle
    decreases |arrivals|
  {
    if arrivals == [] || arrivals[0].at >= armed + t.idle {
    } else {
      NotBeforeIdle(t, Later(armed, arrivals[0].at), arrivals[1..]);
    }
  }

  /** An authenticated connection is closed within the idle timeout exactly if no frame of it comes before
      that is over. */
  lemma {:induction false} IdleHoldsExactly(t: Timeouts, start: Instant, arrivals: seq<Arrival>)
    requires t.idle > 0.0 && Chronological(arrivals)
    ensures ExpiresAt(t, start, true, arrivals) <= start + t.idle <==>
            forall i | 0 <= i < |arrivals| :: arrivals[i].at <= start || arrivals[i].at >= start + t.idle
    decreases |arrivals|
  {
    if arrivals == [] || arrivals[0].at >= start + t.idle {
    } else if arrivals[0].at > start {
      NotBeforeIdle(t, arrivals[0].at, arrivals[1..]);
    } else {
      IdleHoldsExactly(t, start, arrivals[1..]);
      assert forall i | 1 <= i < |arrivals| :: arrivals[1..][i - 1] == arrivals[i];
    }
  }

  /** The frame that authenticates a connection in time puts it under the idle timeout from then on. */
  lemma AuthenticationRearms(t: Timeouts, start: Instant, at: Instant, arrivals: seq<Arrival>)
    requires start <= at < start + t.unauthenticated
    ensures ExpiresAt(t, start, false, [Arrival(at, true)] + arrivals) == ExpiresAt(t, at, true, arrivals)
  {
    assert ([Arrival(at, true)] + arrivals)[1..] == arrivals;
  }

  /** `n` frames, half a timeout apart, none of which authenticates. */
  function Heartbeats(t: Timeouts, start: Instant, n: nat): seq<Arrival>
    decreases n
  {
    if n == 0 then []
    else
      var next := start + t.unauthenticated / 2.0;
      [Arrival(next, false)] + Heartbeats(t, next, n - 1)
  }

  lemma {:induction false} HeartbeatsDefer(t: Timeouts, start: Instant, n: nat)
    requires t.unauthenticated > 0.0
    ensures ExpiresAt(t, start, false, Heartbeats(t, start, n))
            == start + n as real * (t.unauthenticated / 2.0) + t.unauthenticated
    ensures Unauthenticated(Heartbeats(t, start, n)) && Chronological(Heartbeats(t, start, n))
    ensures forall i | 0 <= i < |Heartbeats(t, start, n)| :: Heartbeats(t, start, n)[i].at >= start
    decreases n
  {
    if n == 0 {
    } else {
      var half := t.unauthenticated / 2.0;
      HeartbeatsDefer(t, start + half, n - 1);
      assert Heartbeats(t, start, n)[1..] == Heartbeats(t, start + half, n - 1);
      assert n as real * half == (n - 1) as real * half + half;
    }
  }

  lemma Exceeds(x: real, h: real) returns (n: nat)
    requires h > 0.0
    ensures n as real * h > x
  {
    var q := x / h;
    n := if q < 0.0 then 1 else q.Floor + 1;
    assert q * h == x;
    assert n as real > q ==> (n as real - q) * h > 0.0;
  }

  /** There is no moment by which a connection that does not authenticate is sure to be closed. */
  lemma DeadlineCanBeDeferred(t: Timeouts, start: Instant, until: Instant)
    requires t.unauthenticated > 0.0
    ensures exists arrivals ::
              Unauthenticated(arrivals) && Chronological(arrivals) && ExpiresAt(t, start, false, arrivals) > until
  {
    var n := Exceeds(until - start, t.unauthenticated / 2.0);
    HeartbeatsDefer(t, start, n);
  }
}
