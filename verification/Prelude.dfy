/** Names shared by every part of the model. */
module Prelude {
  datatype Option<+T> = None | Some(value: T)

  /** Account usernames and provisional "anon-…" ids; both are dictionary keys of the relay. */
  type Identity = string

  /** A connection's uuid. */
  type ConnId = string

  /** Seconds on a monotonic clock, or an instant of the database. */
  type Instant = real

  /** What an access token resolves to, and what a connection is bound to. */
  datatype Account = Account(userId: string, username: Identity, sessionId: string)

  predicate NonDecreasing(times: seq<Instant>) {
    forall i, j | 0 <= i < j < |times| :: times[i] <= times[j]
  }

  function Min(a: nat, b: nat): nat {
    if a <= b then a else b
  }
}
