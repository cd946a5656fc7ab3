/** Refreshes of one token racing between its lookup and its rotation (server/app/auth/service.py:280-302). */
module RefreshRaces {
  import opened Prelude
  import opened Accounts
  import opened AccountRuns
  import AccountTheorems

  /** Both refreshes present the same token. */
  predicate SameToken(w: World, a: Attempt, b: Attempt) {
    a in w.begun && b in w.begun && w.begun[a].presented == w.begun[b].presented
  }

  /** At some moment of the run both were between lookup and rotation. */
  ghost predicate Overlapped(c: Config, events: seq<Event>, a: Attempt, b: Attempt) {
    exists k :: 0 <= k <= |events| && {a, b} <= Exec(c, START, events[..k]).inFlight
  }

  lemma OverlappedSoFar(c: Config, events: seq<Event>, a: Attempt, b: Attempt)
    requires {a, b} <= Exec(c, START, events).inFlight
    ensures Overlapped(c, events, a, b)
  {
    assert events[..|events|] == events;
  }

  lemma OverlappedSnoc(c: Config, events: seq<Event>, a: Attempt, b: Attempt)
    requires events != [] && Overlapped(c, events[..|events| - 1], a, b)
    ensures Overlapped(c, events, a, b)
  {
    var most := events[..|events| - 1];
    var k :| 0 <= k <= |most| && {a, b} <= Exec(c, START, most[..k]).inFlight;
    assert most[..k] == events[..k];
  }

  /** A refresh under way or accepted, and an accepted one of the same token, have overlapped. */
  ghost predicate RivalsOverlapped(c: Config, events: seq<Event>, w: World) {
    forall a, b | a != b && b in w.spent && (a in w.spent || a in w.inFlight) && SameToken(w, a, b) ::
      Overlapped(c, events, a, b)
  }

  /** What an event changes of two refreshes that are rivals after it. */
  lemma RivalsBefore(c: Config, w: World, e: Event, a: Attempt, b: Attempt)
    requires Sound(c, w) && a != b
    requires var w' := Apply(c, w, e);
             b in w'.spent && (a in w'.spent || a in w'.inFlight) && SameToken(w', a, b)
    ensures SameToken(w, a, b)
    ensures || (b in w.spent && (a in w.spent || a in w.inFlight))
            || (a in w.spent && b in w.inFlight)
            || {a, b} <= w.inFlight
  {
    if Enabled(w, e) && e.BeginRefresh? && a == e.attempt && a !in w.begun {
      var sid := Redeem(w.db, e.presented, e.now).value;
      LookupFindsLatest(w, e.presented, sid);
      LatestIsUnspent(w, sid, b);
    }
  }

  lemma OverlappedEither(c: Config, events: seq<Event>, a: Attempt, b: Attempt)
    ensures Overlapped(c, events, a, b) <==> Overlapped(c, events, b, a)
  {
    assert {a, b} == {b, a};
  }

  lemma {:induction false} RivalsOverlap(c: Config, events: seq<Event>)
    requires c.unicode.Sound()
    ensures RivalsOverlapped(c, events, Exec(c, START, events))
  {
    if events == [] {
    } else {
      var most, e := events[..|events| - 1], events[|events| - 1];
      var w, w' := Exec(c, START, most), Exec(c, START, events);
      RivalsOverlap(c, most);
      RunsKeepSound(c, START, most);
      forall a, b | a != b && b in w'.spent && (a in w'.spent || a in w'.inFlight) && SameToken(w', a, b)
        ensures Overlapped(c, events, a, b)
      {
        RivalsBefore(c, w, e, a, b);
        if {a, b} <= w.inFlight {
          OverlappedSoFar(c, most, a, b);
        } else {
          assert Overlapped(c, most, a, b) || Overlapped(c, most, b, a);
        }
        OverlappedEither(c, most, a, b);
        OverlappedSnoc(c, events, a, b);
      }
    }
  }

  /** No refresh token has been accepted twice. */
  ghost predicate SpentOnce(w: World) {
    forall i, j | 0 <= i < j < |w.spent| :: !SameToken(w, w.spent[i], w.spent[j])
  }

  /** No two refreshes of one token are ever under way at the same time. */
  ghost predicate Sequential(c: Config, events: seq<Event>) {
    forall k, a, b | 0 <= k <= |events| && a != b && {a, b} <= Exec(c, START, events[..k]).inFlight ::
      !SameToken(Exec(c, START, events[..k]), a, b)
  }

  lemma StillBegun(c: Config, events: seq<Event>, k: nat, a: Attempt)
    requires c.unicode.Sound() && k <= |events| && a in Exec(c, START, events[..k]).inFlight
    ensures var early, late := Exec(c, START, events[..k]), Exec(c, START, events);
            a in early.begun && a in late.begun && late.begun[a] == early.begun[a]
  {
    RunsKeepSound(c, START, events[..k]);
    AccountTheorems.RunsExtend(c, START, events[..k], events[k..]);
    assert events[..k] + events[k..] == events;
    AccountTheorems.RecordsGrow(c, Exec(c, START, events[..k]), events[k..]);
  }

  lemma SequentialDoNotOverlap(c: Config, events: seq<Event>, w: World, a: Attempt, b: Attempt)
    requires c.unicode.Sound() && Sequential(c, events) && w == Exec(c, START, events)
    requires a != b && SameToken(w, a, b)
    ensures !Overlapped(c, events, a, b)
  {
    if Overlapped(c, events, a, b) {
      var k :| 0 <= k <= |events| && {a, b} <= Exec(c, START, events[..k]).inFlight;
      StillBegun(c, events, k, a);
      StillBegun(c, events, k, b);
    }
  }

  lemma RivalsApartAreDifferent(c: Config, events: seq<Event>, w: World)
    requires c.unicode.Sound() && Sequential(c, events) && w == Exec(c, START, events)
    requires Flown(w) && RivalsOverlapped(c, events, w)
    ensures SpentOnce(w)
  {
    forall i, j | 0 <= i < j < |w.spent| ensures !SameToken(w, w.spent[i], w.spent[j]) {
      if SameToken(w, w.spent[i], w.spent[j]) {
        SequentialDoNotOverlap(c, events, w, w.spent[i], w.spent[j]);
      }
    }
  }

  /** When refreshes of one token never overlap, in particular when each is a single step, each token is
      accepted at most once. */
  lemma SequentialIsSpentOnce(c: Config, events: seq<Event>)
    requires c.unicode.Sound() && Sequential(c, events)
    ensures SpentOnce(Exec(c, START, events))
  {
    RivalsOverlap(c, events);
    RunsKeepSound(c, START, events);
    RivalsApartAreDifferent(c, events, Exec(c, START, events));
  }

  /** Two refreshes of a token begin. */
  function Flying(c: Config, w: World, presented: Token, a: Attempt, b: Attempt, now: Instant): World {
    Apply(c, Apply(c, w, BeginRefresh(a, presented, now)), BeginRefresh(b, presented, now))
  }

  /** Two refreshes finish. */
  function Landed(c: Config, w: World, a: Attempt, b: Attempt, s: Token, t: Token): World {
    Apply(c, Apply(c, w, FinishRefresh(a, s, "")), FinishRefresh(b, t, ""))
  }

  lemma BeginsTwice(c: Config, w: World, presented: Token, a: Attempt, b: Attempt, now: Instant)
    requires Redeem(w.db, presented, now).Ok? && a != b && a !in w.begun && b !in w.begun
    ensures var w' := Flying(c, w, presented, a, b, now);
            && {a, b} <= w'.inFlight && SameToken(w', a, b) && w'.begun[a].presented == presented
            && w'.begun[a].sid == w'.begun[b].sid && w'.begun[a].sid in w'.db.sessions
            && w'.spent == w.spent && w'.grants == w.grants
  {
  }

  lemma FinishesTwice(c: Config, w: World, a: Attempt, b: Attempt, s: Token, t: Token)
    requires a != b && {a, b} <= w.inFlight && SameToken(w, a, b)
    requires w.begun[a].sid == w.begun[b].sid && w.begun[a].sid in w.db.sessions
    requires s != t && NewToken(w, s) && NewToken(w, t)
    ensures var w' := Landed(c, w, a, b, s, t);
            w'.spent == w.spent + [a, b] && SameToken(w', a, b)
  {
  }

  /** Whenever a token can be exchanged, two overlapping refreshes both exchange it. */
  lemma OverlappingBothSucceed(
      c: Config, w: World, presented: Token, a: Attempt, b: Attempt, now: Instant, s: Token, t: Token)
    requires Redeem(w.db, presented, now).Ok?
    requires a != b && a !in w.begun && b !in w.begun && s != t && NewToken(w, s) && NewToken(w, t)
    ensures var landed := Landed(c, Flying(c, w, presented, a, b, now), a, b, s, t);
            landed.spent == w.spent + [a, b] && SameToken(landed, a, b) && !SpentOnce(landed)
  {
    var flying := Flying(c, w, presented, a, b, now);
    BeginsTwice(c, w, presented, a, b, now);
    FinishesTwice(c, flying, a, b, s, t);
    var landed := Landed(c, flying, a, b, s, t);
    var n := |w.spent|;
    assert landed.spent[n] == a && landed.spent[n + 1] == b;
  }

  // ---------------------------------------------------------------- how many may race

  /** The refreshes of a token under way. */
  function Rivals(w: World, token: Token): set<Attempt> {
    set a | a in w.inFlight && a in w.begun && w.begun[a].presented == token
  }

  ghost predicate Few(w: World, k: nat) {
    forall t :: |Rivals(w, t)| <= k
  }

  /** Never more than `k` refreshes of one token are under way. */
  ghost predicate AtMost(c: Config, events: seq<Event>, k: nat) {
    forall i | 0 <= i <= |events| :: Few(Exec(c, START, events[..i]), k)
  }

  lemma AtMostSnoc(c: Config, events: seq<Event>, e: Event, k: nat)
    requires AtMost(c, events, k) && Few(Apply(c, Exec(c, START, events), e), k)
    ensures AtMost(c, events + [e], k)
    ensures Exec(c, START, events + [e]) == Apply(c, Exec(c, START, events), e)
  {
    var more := events + [e];
    assert more[..|events|] == events;
    forall i | 0 <= i <= |more| ensures Few(Exec(c, START, more[..i]), k) {
      if i <= |events| {
        assert more[..i] == events[..i];
      } else {
        assert more[..i] == more;
      }
    }
  }

  lemma Fewer(a: set<Attempt>, b: set<Attempt>)
    requires a <= b
    ensures |a| <= |b|
  {
    assert b == a + (b - a);
  }

  lemma TwoRivals(w: World, a: Attempt, b: Attempt)
    requires a != b && {a, b} <= w.inFlight && SameToken(w, a, b)
    ensures |Rivals(w, w.begun[a].presented)| >= 2
  {
    var rivals := Rivals(w, w.begun[a].presented);
    Fewer({a, b}, rivals);
  }

  lemma OneIsSequential(c: Config, events: seq<Event>)
    requires c.unicode.Sound() && AtMost(c, events, 1)
    ensures Sequential(c, events)
  {
    forall i, a, b | 0 <= i <= |events| && a != b && {a, b} <= Exec(c, START, events[..i]).inFlight
      ensures !SameToken(Exec(c, START, events[..i]), a, b)
    {
      var w := Exec(c, START, events[..i]);
      assert Few(w, 1);
      if SameToken(w, a, b) {
        TwoRivals(w, a, b);
      }
    }
  }

  lemma WhoRaces(c: Config, w: World, e: Event, t: Token)
    requires Flown(w)
    ensures Rivals(Apply(c, w, e), t) <= Rivals(w, t) + if e.BeginRefresh? && e.presented == t then {e.attempt} else {}
  {
    if Enabled(w, e) {
      match e
      case BeginRefresh(_, _, _) =>
      case FinishRefresh(_, _, _) =>
      case _ =>
    }
  }

  /** A refresh that begins is one rival more for its token; nothing else makes any. */
  lemma RivalsGrow(c: Config, w: World, e: Event, t: Token)
    requires Flown(w)
    ensures |Rivals(Apply(c, w, e), t)|
            <= |Rivals(w, t)| + if e.BeginRefresh? && e.presented == t then 1 else 0
  {
    WhoRaces(c, w, e, t);
    var more: set<Attempt> := if e.BeginRefresh? && e.presented == t then {e.attempt} else {};
    Fewer(Rivals(Apply(c, w, e), t), Rivals(w, t) + more);
  }

  /** With at most `k` refreshes of one token under way, no run that goes on from here accepts a token twice. */
  ghost predicate KeepsSpentOnce(c: Config, before: seq<Event>, k: nat) {
    forall events | before <= events && AtMost(c, events, k) :: SpentOnce(Exec(c, START, events))
  }

  lemma {:induction false} Above(s: set<nat>) returns (n: nat)
    ensures forall x | x in s :: x < n
  {
    if s == {} {
      n := 0;
    } else {
      var x :| x in s;
      var m := Above(s - {x});
      n := if x < m then m else x + 1;
      assert forall y | y in s :: y == x || y in s - {x};
    }
  }

  function Long(n: nat): (t: Token)
    ensures |t| == n
  {
    seq(n, i => 'x')
  }

  lemma {:induction false} Longer(grants: seq<Grant>) returns (n: nat)
    ensures forall g | g in grants :: |g.token| < n
  {
    if grants == [] {
      n := 0;
    } else {
      var m := Longer(grants[1..]);
      n := if |grants[0].token| < m then m else |grants[0].token| + 1;
      assert forall g | g in grants :: g == grants[0] || g in grants[1..];
    }
  }

  /** At most `n` refreshes of the token and one of any other are under way. */
  ghost predicate Racing(w: World, token: Token, n: nat) {
    |Rivals(w, token)| <= n && forall t | t != token :: |Rivals(w, t)| <= 1
  }

  lemma RaceOn(c: Config, events: seq<Event>, e: Event, token: Token, n: nat, k: nat) returns (more: seq<Event>)
    requires c.unicode.Sound() && AtMost(c, events, k) && k > 1 && n <= 2
    requires Racing(Exec(c, START, events), token, n) && (e.BeginRefresh? ==> e.presented == token && n < 2)
    ensures more == events + [e] && AtMost(c, more, k)
    ensures Exec(c, START, more) == Apply(c, Exec(c, START, events), e)
    ensures Racing(Exec(c, START, more), token, if e.BeginRefresh? then n + 1 else n)
  {
    var w := Exec(c, START, events);
    RunsKeepSound(c, START, events);
    forall t
      ensures |Rivals(Apply(c, w, e), t)| <= |Rivals(w, t)| + if e.BeginRefresh? && e.presented == t then 1 else 0
    {
      RivalsGrow(c, w, e, t);
    }
    more := events + [e];
    AtMostSnoc(c, events, e, k);
  }

  lemma AtMostMore(c: Config, events: seq<Event>, k: nat)
    requires AtMost(c, events, 1) && k > 0
    ensures AtMost(c, events, k)
  {
    forall i | 0 <= i <= |events| ensures Few(Exec(c, START, events[..i]), k) {
      assert Few(Exec(c, START, events[..i]), 1);
    }
  }

  /** Both lookups. */
  lemma RaceBegins(
      c: Config, before: seq<Event>, presented: Token, now: Instant, a: Attempt, b: Attempt, k: nat)
      returns (events: seq<Event>)
    requires c.unicode.Sound() && AtMost(c, before, 1) && k > 1 && Rivals(Exec(c, START, before), presented) == {}
    ensures before <= events && AtMost(c, events, k) && Racing(Exec(c, START, events), presented, 2)
    ensures Exec(c, START, events) == Flying(c, Exec(c, START, before), presented, a, b, now)
  {
    assert before[..|before|] == before;
    assert Few(Exec(c, START, before), 1);
    AtMostMore(c, before, k);
    var first := RaceOn(c, before, BeginRefresh(a, presented, now), presented, 0, k);
    events := RaceOn(c, first, BeginRefresh(b, presented, now), presented, 1, k);
  }

  /** Both rotations. */
  lemma RaceEnds(
      c: Config, before: seq<Event>, presented: Token, a: Attempt, b: Attempt, s: Token, t: Token, k: nat)
      returns (events: seq<Event>)
    requires c.unicode.Sound() && AtMost(c, before, k) && k > 1 && Racing(Exec(c, START, before), presented, 2)
    ensures before <= events && AtMost(c, events, k)
    ensures Exec(c, START, events) == Landed(c, Exec(c, START, before), a, b, s, t)
  {
    var first := RaceOn(c, before, FinishRefresh(a, s, ""), presented, 2, k);
    events := RaceOn(c, first, FinishRefresh(b, t, ""), presented, 2, k);
  }

  /** Attempts and tokens not used before. */
  lemma Draws(w: World) returns (a: Attempt, s: Token, t: Token)
    ensures a !in w.begun && a + 1 !in w.begun && s != t && NewToken(w, s) && NewToken(w, t)
  {
    a := Above(w.begun.Keys);
    var n := Longer(w.grants);
    s, t := Long(n), Long(n + 1);
    assert |s| != |t|;
  }

  /** Both. */
  lemma RaceRuns(
      c: Config, before: seq<Event>, presented: Token, now: Instant, a: Attempt, b: Attempt, s: Token, t: Token, k: nat)
      returns (events: seq<Event>)
    requires c.unicode.Sound() && AtMost(c, before, 1) && k > 1 && Rivals(Exec(c, START, before), presented) == {}
    ensures before <= events && AtMost(c, events, k)
    ensures Exec(c, START, events) == Landed(c, Flying(c, Exec(c, START, before), presented, a, b, now), a, b, s, t)
  {
    var flying := RaceBegins(c, before, presented, now, a, b, k);
    events := RaceEnds(c, flying, presented, a, b, s, t, k);
  }

  /** Two refreshes of a token that can be exchanged, racing. */
  lemma Race(c: Config, before: seq<Event>, w: World, presented: Token, now: Instant, k: nat)
      returns (events: seq<Event>)
    requires c.unicode.Sound() && AtMost(c, before, 1) && k > 1
    requires w == Exec(c, START, before) && Redeem(w.db, presented, now).Ok? && Rivals(w, presented) == {}
    ensures before <= events && AtMost(c, events, k) && !SpentOnce(Exec(c, START, events))
  {
    var a, s, t := Draws(w);
    OverlappingBothSucceed(c, w, presented, a, a + 1, now, s, t);
    events := RaceRuns(c, before, presented, now, a, a + 1, s, t, k);
  }

  /** From any state in which a token can be exchanged that nobody is exchanging, however it was reached
      without overlap: every run that goes on with at most `k` refreshes of one token under way accepts
      each token at most once, if and only if `k` is one. */
  lemma SpentOnceExactly(c: Config, before: seq<Event>, presented: Token, now: Instant, k: nat)
    requires c.unicode.Sound() && AtMost(c, before, 1) && k > 0
    requires var w := Exec(c, START, before);
             Redeem(w.db, presented, now).Ok? && Rivals(w, presented) == {}
    ensures KeepsSpentOnce(c, before, k) <==> k == 1
  {
    if k == 1 {
      forall events | before <= events && AtMost(c, events, k) ensures SpentOnce(Exec(c, START, events)) {
        OneIsSequential(c, events);
        SequentialIsSpentOnce(c, events);
      }
    } else {
      var events := Race(c, before, Exec(c, START, before), presented, now, k);
    }
  }
}
