/** Pair-setup over every connection: the shared attempt limiter stands before each SRP session made. */
module SetupSessions {
  import opened Base
  import opened RateLimit
  import opened SourceLimit
  import opened Guardrails
  import opened Auth

  /** Some of the starts, in the same order. */
  predicate SomeOf(some: History, h: History) {
    if h == [] then some == []
    else
      || SomeOf(some, h[..|h| - 1])
      || (some != [] && some[|some| - 1] == h[|h| - 1] && SomeOf(some[..|some| - 1], h[..|h| - 1]))
  }

  lemma {:induction false} SomeCountLess(some: History, h: History, key: Option<string>, end: real, window: real)
    requires SomeOf(some, h)
    ensures CountIn(some, key, end, window) <= CountIn(h, key, end, window)
    decreases |h|
  {
    if h != [] {
      if SomeOf(some, h[..|h| - 1]) {
        SomeCountLess(some, h[..|h| - 1], key, end, window);
      } else {
        SomeCountLess(some[..|some| - 1], h[..|h| - 1], key, end, window);
      }
    }
  }

  /** Fewer starts overfill no window. */
  lemma SomeWithin(some: History, h: History, key: Option<string>, window: real, limit: int)
    requires SomeOf(some, h) && Within(h, key, window, limit)
    ensures Within(some, key, window, limit)
  {
    forall end: real ensures CountIn(some, key, end, window) <= limit {
      SomeCountLess(some, h, key, end, window);
    }
  }

  lemma SomeGrows(some: History, h: History, a: Attempt)
    requires SomeOf(some, h)
    ensures SomeOf(some, h + [a]) && SomeOf(some + [a], h + [a])
  {
    assert (h + [a])[..|h|] == h && (some + [a])[..|some|] == some;
  }

  /** A frame arriving on one of several connections. */
  datatype Arrival = Arrival(connection: nat, source: Option<string>, frame: Frame, answers: Answers, at: real)

  class SetupService {
    const limiter: PairSetupAttemptLimiter
    ghost var sessions: History          // every SRP session made, on whichever connection

    ghost predicate Valid()
      reads this, limiter.windows
    {
      limiter.windows.Exact() && SomeOf(sessions, limiter.windows.history)
    }

    constructor (limits: Limits, now: real)
      requires Sensible(limits)
      ensures Valid() && fresh(limiter) && fresh(limiter.windows) && limiter.windows.limits == limits && sessions == []
      ensures limiter.windows.checkedAt == now
    {
      limiter := new PairSetupAttemptLimiter(limits, now);
      sessions := [];
    }

    /** One frame on one connection. The limiter answers the setup handler, and only it; an SRP session
        the handler makes is one of the starts the limiter admitted. */
    method HandleFrame(conn: CompanionServerAuth, source: Option<string>, frame: Frame, a: Answers, now: real) returns (ok: bool)
      requires Valid() && conn.Coherent() && limiter.windows.checkedAt <= now
      modifies this, limiter.windows, conn
      ensures Valid() && conn.Coherent() && now >= limiter.windows.checkedAt >= old(limiter.windows.checkedAt)
      ensures !StartsSetup(old(conn.phase), frame) ==>
                && sessions == old(sessions) && conn.sessionsMade == old(conn.sessionsMade)
                && limiter.windows.Snapshot() == old(limiter.windows.Snapshot()) && limiter.windows.history == old(limiter.windows.history)
      ensures StartsSetup(old(conn.phase), frame) ==>
                var key, l := source.GetOr(UNKNOWN_SOURCE), limiter.windows.limits;
                var (b, d) := Admit(Pruned(old(limiter.windows.Snapshot()), now - l.window), l, now, key);
                && limiter.windows.Snapshot() == b
                && conn.sessionsMade == old(conn.sessionsMade) + (if MakesSession(M1Setup, a.(admitted := d.Allowed?)) then 1 else 0)
                && (ok <==> Accepts(old(conn.phase), frame, a.(admitted := d.Allowed?), conn.requirePaired,
                                    old(conn.setupWindow), old(conn.pvSessionKey)))
      ensures sessions == old(sessions) + if conn.sessionsMade > old(conn.sessionsMade) then [Attempt(now, source.GetOr(UNKNOWN_SOURCE))] else []
      ensures conn.setupSession.Some? && conn.setupSession != old(conn.setupSession) ==> conn.sessionsMade > old(conn.sessionsMade)
    {
      hide Sound, SomeOf, Admit, Pruned, CompanionServerAuth.CoherentAs, FrameFaults, Accepts;
      var answers := a;
      ghost var some := sessions;
      if StartsSetup(conn.phase, frame) {
        ghost var before := limiter.windows.history;
        var d := limiter.AdmitStart(source, now);
        answers := a.(admitted := d.Allowed?);
        SomeGrows(some, before, Attempt(now, source.GetOr(UNKNOWN_SOURCE)));
        assert before + [] == before;
      }
      ok := conn.HandleAuthFrame(frame, answers);
      if conn.sessionsMade > old(conn.sessionsMade) {
        sessions := sessions + [Attempt(now, source.GetOr(UNKNOWN_SOURCE))];
      }
      assert some + [] == some;
    }

    /** No window holds more SRP sessions than the limits say. */
    lemma SessionsWithin()
      requires Valid()
      ensures var l := limiter.windows.limits;
              && Within(sessions, None, l.window, l.overall)
              && (l.overall <= l.perSource + l.maxSources ==> SourcesWithin(sessions, l))
    {
      hide Within, SomeOf, Rising, Remembered, Listed, Overall, BySource;
      var h, l := limiter.windows.history, limiter.windows.limits;
      SomeWithin(sessions, h, None, l.window, l.overall);
      if l.overall <= l.perSource + l.maxSources {
        forall k ensures SourceWithin(sessions, k, l) {
          assert SourceWithin(h, k, l);
          SomeWithin(sessions, h, Some(k), l.window, l.perSource);
        }
      }
    }

    /** Any number of connections, any frames in any order: the sessions made on all of them together
        obey the limits. */
    method HandleAll(conns: seq<CompanionServerAuth>, script: seq<Arrival>)
      requires Valid() && forall c | c in conns :: c.Coherent()
      requires forall i | 0 <= i < |script| :: script[i].connection < |conns| && limiter.windows.checkedAt <= script[i].at
      requires forall i, j | 0 <= i < j < |script| :: script[i].at <= script[j].at
      modifies this, limiter.windows, conns
      ensures Valid() && forall c | c in conns :: c.Coherent()
      ensures Within(sessions, None, limiter.windows.limits.window, limiter.windows.limits.overall)
      ensures limiter.windows.limits.overall <= limiter.windows.limits.perSource + limiter.windows.limits.maxSources ==>
                SourcesWithin(sessions, limiter.windows.limits)
    {
      hide Valid, Within, SourcesWithin, CompanionServerAuth.CoherentAs, Admit, Pruned, MakesSession, StartsSetup;
      for i := 0 to |script|
        invariant Valid() && forall c | c in conns :: c.Coherent()
        invariant forall j | i <= j < |script| :: limiter.windows.checkedAt <= script[j].at
      {
        var s := script[i];
        assert conns[s.connection] in conns;
        var _ := HandleFrame(conns[s.connection], s.source, s.frame, s.answers, s.at);
      }
      SessionsWithin();
    }
  }
}
