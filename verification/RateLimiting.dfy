/** Per-connection fixed-window rate limiter (server/app/websocket/limits.py). */
module RateLimiting {
  import opened Prelude

  /** The limiter's two counters as a value. */
  datatype Window = Window(startedAt: Instant, count: nat)

  const FRESH := Window(0.0, 0)

  /** The window after one more inbound message at `now`, admitted or not. */
  function Tick(w: Window, seconds: real, now: Instant): Window {
    if now - w.startedAt >= seconds then Window(now, 1) else Window(w.startedAt, w.count + 1)
  }

  class RateLimiter {
    const maxMessages: nat
    const windowSeconds: real
    ghost const owner: ConnId // the connection the limiter belongs to
    var windowStartedAt: Instant
    var count: nat

    ghost function View(): Window
      reads this
    {
      Window(windowStartedAt, count)
    }

    constructor (maxMessages: nat, windowSeconds: real, ghost owner: ConnId)
      ensures View() == FRESH
      ensures this.maxMessages == maxMessages && this.windowSeconds == windowSeconds && this.owner == owner
    {
      this.maxMessages := maxMessages;
      this.windowSeconds := windowSeconds;
      this.owner := owner;
      windowStartedAt := 0.0;
      count := 0;
    }

    method Allow(now: Instant) returns (ok: bool)
      modifies this
      ensures View() == Tick(old(View()), windowSeconds, now)
      ensures ok <==> View().count <= maxMessages
    {
      if now - windowStartedAt >= windowSeconds {
        windowStartedAt := now;
        count := 0;
      }
      count := count + 1;
      return count <= maxMessages;
    }
  }
}
