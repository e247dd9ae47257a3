/** The two limiters on pair-setup, as they keep their deques and their ordered table in place. */
module Guardrails {
  import opened Base
  import opened RateLimit
  import opened SourceLimit

  /** The table when the sources in `done` have been gone through. */
  ghost predicate PartlyPruned(m: map<string, seq<real>>, before: map<string, seq<real>>, done: seq<string>, cutoff: real) {
    && (forall k :: k in m <==> k in before && (k in done ==> Fresh(before[k], cutoff) != []))
    && (forall k | k in m :: m[k] == if k in done then Fresh(before[k], cutoff) else before[k])
  }

  lemma PruneStart(before: map<string, seq<real>>, cutoff: real)
    ensures PartlyPruned(before, before, [], cutoff) && Live([], before, cutoff) == []
  {
  }

  lemma PruneStep(m: map<string, seq<real>>, before: map<string, seq<real>>, done: seq<string>, key: string, cutoff: real)
    requires PartlyPruned(m, before, done, cutoff) && key in before && key !in done
    ensures key in m && m[key] == before[key]
    ensures PartlyPruned(if Fresh(m[key], cutoff) == [] then m - {key} else m[key := Fresh(m[key], cutoff)], before, done + [key], cutoff)
  {
  }

  lemma LiveStep(done: seq<string>, key: string, before: map<string, seq<real>>, cutoff: real)
    requires key in before
    ensures Live(done + [key], before, cutoff)
            == if Fresh(before[key], cutoff) != [] then Live(done, before, cutoff) + [key] else Live(done, before, cutoff)
  {
    assert (done + [key])[..|done|] == done;
  }

  lemma PruneDone(m: map<string, seq<real>>, before: map<string, seq<real>>, done: seq<string>, cutoff: real)
    requires PartlyPruned(m, before, done, cutoff) && forall k :: k in done <==> k in before
    ensures m == map k | k in before && Fresh(before[k], cutoff) != [] :: Fresh(before[k], cutoff)
  {
  }

  /** The deques and the ordered table both limiters keep. */
  class SlidingWindows {
    const limits: Limits
    var overallAttempts: seq<real>
    var sourceAttempts: map<string, seq<real>>
    var sourceOrder: seq<string>              // least recently used first
    ghost var history: History                // everything recorded so far
    ghost var checkedAt: real                 // when the limiter was last asked

    ghost function Snapshot(): Book
      reads this
    {
      Book(sourceOrder, sourceAttempts, overallAttempts)
    }

    /** The order lists the table; with limits and a window that make sense, everything in
        SourceLimit.Sound holds of the fields as they are. */
    ghost predicate Valid()
      reads this
    {
      Listed(Snapshot()) && (Sensible(limits) ==> Sound(Snapshot(), history, limits, checkedAt))
    }

    ghost predicate Exact()
      reads this
    {
      Sensible(limits) && Valid()
    }

    constructor (limits: Limits, now: real)
      ensures Valid() && this.limits == limits && history == [] && checkedAt == now
    {
      this.limits := limits;
      overallAttempts, sourceAttempts, sourceOrder, history, checkedAt := [], map[], [], [], now;
      if Sensible(limits) {
        EmptyIsSound(limits, now);
      }
    }

    /** Drop what has left the window; a source with nothing left is forgotten. */
    method Prune(now: real)
      requires Listed(Snapshot())
      modifies this`overallAttempts, this`sourceAttempts, this`sourceOrder
      ensures Snapshot() == Pruned(old(Snapshot()), now - limits.window)
    {
      hide Live, PartlyPruned, Fresh;
      var cutoff := now - limits.window;
      overallAttempts := PopExpired(overallAttempts, cutoff);
      var keys, before := sourceOrder, sourceAttempts;
      var order: seq<string> := [];
      PruneStart(before, cutoff);
      for i := 0 to |keys|
        invariant sourceOrder == keys && order == Live(keys[..i], before, cutoff)
        invariant PartlyPruned(sourceAttempts, before, keys[..i], cutoff)
        invariant overallAttempts == Fresh(old(overallAttempts), cutoff)
      {
        var key := keys[i];
        assert keys[..i + 1] == keys[..i] + [key] && key !in keys[..i];
        LiveStep(keys[..i], key, before, cutoff);
        PruneStep(sourceAttempts, before, keys[..i], key, cutoff);
        var attempts := PopExpired(sourceAttempts[key], cutoff);
        if attempts == [] {
          sourceAttempts := sourceAttempts - {key};
        } else {
          sourceAttempts := sourceAttempts[key := attempts];
          order := order + [key];
        }
      }
      assert keys[..|keys|] == keys;
      sourceOrder := order;
      PruneDone(sourceAttempts, before, keys, cutoff);
    }

    /** Let time pass: forget what is out of the window. */
    method Advance(now: real)
      requires Valid() && checkedAt <= now
      modifies this`overallAttempts, this`sourceAttempts, this`sourceOrder, this`checkedAt
      ensures Valid() && checkedAt == now
      ensures Snapshot() == Pruned(old(Snapshot()), now - limits.window)
    {
      hide Sound, Pruned, Listed;
      PrunedIsListed(Snapshot(), now - limits.window);
      if Sensible(limits) {
        SoundAdvances(Snapshot(), history, limits, checkedAt, now);
      }
      Prune(now);
      checkedAt := now;
    }

    /** Record one attempt by `key`, or say why not. The clock never goes back. */
    method Take(key: string, now: real) returns (d: Decision)
      requires Exact() && checkedAt <= now
      modifies this
      ensures Exact() && checkedAt == now
      ensures (Snapshot(), d) == Admit(Pruned(old(Snapshot()), now - limits.window), limits, now, key)
      ensures history == old(history) + if d.Allowed? then [Attempt(now, key)] else []
      // Within the bound, the decision is exactly that of counting the whole history.
      ensures limits.overall <= limits.perSource + limits.maxSources ==>
                (d.Allowed? <==> CountIn(old(history), None, now, limits.window) < limits.overall
                                 && CountIn(old(history), Some(key), now, limits.window) < limits.perSource)
      ensures limits.overall <= limits.maxSources ==>
                (d.MaxTries? <==> CountIn(old(history), Some(key), now, limits.window) >= limits.perSource)
      ensures d.MaxTries? ==> CountIn(old(history), Some(key), now, limits.window) >= limits.perSource
      ensures !d.MaxTries? ==> (d.Busy? <==> CountIn(old(history), None, now, limits.window) >= limits.overall)
      // No window is ever overfull; no source's is, exactly within that bound.
      ensures Within(history, None, limits.window, limits.overall)
      ensures limits.overall <= limits.perSource + limits.maxSources ==> SourcesWithin(history, limits)
    {
      hide Pruned, Admit, CountIn, Rising, Remembered, Overall, BySource;
      Advance(now);
      SoundAdmits(Snapshot(), history, limits, now, key);
      d := Record(now, key);
      if d.Allowed? {
        history := history + [Attempt(now, key)];
      }
    }

    method Record(now: real, key: string) returns (d: Decision)
      requires Sensible(limits) && Listed(Snapshot())
      modifies this`overallAttempts, this`sourceAttempts, this`sourceOrder
      ensures (Snapshot(), d) == Admit(old(Snapshot()), limits, now, key)
    {
      if key in sourceAttempts && |sourceAttempts[key]| >= limits.perSource {
        return MaxTries(RetryAfter(limits, now, sourceAttempts[key][0]));
      }
      if |overallAttempts| >= limits.overall {
        return Busy(RetryAfter(limits, now, overallAttempts[0]));
      }
      Append(now, key);
      return Allowed;
    }

    /** Put an attempt on record in place, pushing out the source unused longest if the table is full. */
    method Append(now: real, key: string)
      requires Listed(Snapshot()) && (key in sourceAttempts || |sourceOrder| < limits.maxSources || sourceOrder != [])
      modifies this`overallAttempts, this`sourceAttempts, this`sourceOrder
      ensures Snapshot() == Appended(old(Snapshot()), limits, now, key)
    {
      var attempts := [];
      if key !in sourceAttempts {
        if |sourceOrder| >= limits.maxSources {
          var oldest := sourceOrder[0];
          sourceOrder, sourceAttempts := sourceOrder[1..], sourceAttempts - {oldest};
        }
        sourceOrder := sourceOrder + [key];
      } else {
        attempts := sourceAttempts[key];
        sourceOrder := Without(sourceOrder, key) + [key];
      }
      sourceAttempts := sourceAttempts[key := attempts + [now]];
      overallAttempts := overallAttempts + [now];
    }
  }

  const UNKNOWN_SOURCE := "<unknown>"

  /** Starts of pair-setup, by source and overall. */
  class PairSetupAttemptLimiter {
    const windows: SlidingWindows

    constructor (limits: Limits, now: real)
      requires Sensible(limits)
      ensures fresh(windows) && windows.Exact() && windows.limits == limits && windows.history == [] && windows.checkedAt == now
    {
      windows := new SlidingWindows(limits, now);
    }

    /** Consume one start, or say why not. */
    method AdmitStart(source: Option<string>, now: real) returns (d: Decision)
      requires windows.Exact() && windows.checkedAt <= now
      modifies windows
      ensures windows.Exact() && windows.checkedAt == now
      ensures var key, l := source.GetOr(UNKNOWN_SOURCE), windows.limits;
              && (windows.Snapshot(), d) == Admit(Pruned(old(windows.Snapshot()), now - l.window), l, now, key)
              && windows.history == old(windows.history) + if d.Allowed? then [Attempt(now, key)] else []
    {
      hide Sound, Pruned, Admit;
      d := windows.Take(source.GetOr(UNKNOWN_SOURCE), now);
    }
  }

  /** Reading the oldest entry of an empty list, or pushing out a source from an empty table. */
  datatype Crash = NothingThere

  /** How long a source is asked to wait, on a pruned book. A limit that is not positive is always full,
      and then there may be nothing to read. */
  function CheckOn(b: Book, l: Limits, now: real, key: string): Result<Option<int>, Crash> {
    var mine := Entry(b, key);
    var overallFull, mineFull := |b.overall| >= l.overall, |mine| >= l.perSource;
    if (overallFull && b.overall == []) || (mineFull && mine == []) then Err(NothingThere)
    else if overallFull then Ok(Some(RetryAfter(l, now, if mineFull && mine[0] < b.overall[0] then mine[0] else b.overall[0])))
    else if mineFull then Ok(Some(RetryAfter(l, now, mine[0])))
    else Ok(None)
  }

  /** A failure is recorded unless a limit is full already: no decision could change by it. */
  function RecordOn(b: Book, l: Limits, now: real, key: string): Result<Book, Crash> {
    if |b.overall| >= l.overall || (key in b.sources && |b.sources[key]| >= l.perSource) then Ok(b)
    else if key !in b.sources && |b.order| >= l.maxSources && b.order == [] then Err(NothingThere)
    else Ok(Appended(b, l, now, key))
  }

  /** Failed setups, by source and overall. Any numbers are taken as limits. */
  class PairFailureLimiter {
    const windows: SlidingWindows

    constructor (limits: Limits, now: real)
      ensures fresh(windows) && windows.Valid() && windows.limits == limits && windows.history == [] && windows.checkedAt == now
    {
      windows := new SlidingWindows(limits, now);
    }

    /** A setup may start unless its source, or everyone together, has failed too often; the wait that is
        advised is for the earlier of the two windows to free a place. */
    method Check(source: Option<string>, now: real) returns (r: Result<Option<int>, Crash>)
      requires windows.Valid() && windows.checkedAt <= now
      modifies windows
      ensures windows.Valid() && windows.checkedAt == now && windows.history == old(windows.history)
      ensures var key, l := source.GetOr(UNKNOWN_SOURCE), windows.limits;
              && windows.Snapshot() == Pruned(old(windows.Snapshot()), now - l.window)
              && r == CheckOn(windows.Snapshot(), l, now, key)
              && (Sensible(l) ==> r == Ok(Advice(windows.Snapshot(), l, now, key)))
              && (Sensible(l) && l.overall <= l.perSource + l.maxSources ==>
                    (r == Ok(None) <==> CountIn(windows.history, None, now, l.window) < l.overall
                                        && CountIn(windows.history, Some(key), now, l.window) < l.perSource))
    {
      hide Sound, Pruned, CountIn, Listed;
      var key := source.GetOr(UNKNOWN_SOURCE);
      windows.Advance(now);
      if Sensible(windows.limits) {
        AdviceDecides(windows.Snapshot(), windows.history, windows.limits, now, key);
      }
      var candidates: seq<real> := [];
      if |windows.overallAttempts| >= windows.limits.overall {
        if windows.overallAttempts == [] {
          return Err(NothingThere);
        }
        candidates := candidates + [windows.overallAttempts[0]];
      }
      var mine := if key in windows.sourceAttempts then windows.sourceAttempts[key] else [];
      if |mine| >= windows.limits.perSource {
        if mine == [] {
          return Err(NothingThere);
        }
        candidates := candidates + [mine[0]];
      }
      if candidates == [] {
        return Ok(None);
      }
      var oldest := if |candidates| == 2 && candidates[1] < candidates[0] then candidates[1] else candidates[0];
      return Ok(Some(RetryAfter(windows.limits, now, oldest)));
    }

    method RecordFailure(source: Option<string>, now: real) returns (r: Result<(), Crash>)
      requires windows.Valid() && windows.checkedAt <= now
      modifies windows
      ensures windows.Valid() && windows.checkedAt == now
      ensures var key, l := source.GetOr(UNKNOWN_SOURCE), windows.limits;
              var pruned := Pruned(old(windows.Snapshot()), now - l.window);
              && (match RecordOn(pruned, l, now, key)
                  case Ok(b) => r.Ok? && windows.Snapshot() == b
                  case Err(e) => r == Err(e) && windows.Snapshot() == pruned)
              && (Sensible(l) ==> r.Ok?)
              && (Sensible(l) ==>
                    windows.history == old(windows.history) + (if Advice(pruned, l, now, key).None? then [Attempt(now, key)] else []))
    {
      hide Sound, Pruned, CountIn, Listed, Appended;
      var key := source.GetOr(UNKNOWN_SOURCE);
      windows.Advance(now);
      ghost var pruned := windows.Snapshot();
      if Sensible(windows.limits) {
        AdviceDecides(pruned, windows.history, windows.limits, now, key);
        SoundAdmits(pruned, windows.history, windows.limits, now, key);
      }
      AppendedIsListed(pruned, windows.limits, now, key);
      if |windows.overallAttempts| >= windows.limits.overall {
        return Ok(());
      }
      if key in windows.sourceAttempts && |windows.sourceAttempts[key]| >= windows.limits.perSource {
        return Ok(());
      }
      if key !in windows.sourceAttempts && |windows.sourceOrder| >= windows.limits.maxSources && windows.sourceOrder == [] {
        return Err(NothingThere);
      }
      windows.Append(now, key);
      windows.history := windows.history + [Attempt(now, key)];
      return Ok(());
    }
  }

  lemma PrunedIsListed(b: Book, cutoff: real)
    requires Listed(b)
    ensures Listed(Pruned(b, cutoff))
  {
    LiveIs(b.order, b.sources, cutoff);
  }

  /** With limits that make sense nothing is ever missing, and no advice is given exactly when a start
      would be admitted. */
  lemma AdviceDecides(b: Book, h: History, l: Limits, now: real, key: string)
    requires Sound(b, h, l, now)
    ensures CheckOn(b, l, now, key) == Ok(Advice(b, l, now, key))
    ensures RecordOn(b, l, now, key) == Ok(Admit(b, l, now, key).0)
    ensures Advice(b, l, now, key).None? <==> Admit(b, l, now, key).1.Allowed?
    ensures l.overall <= l.perSource + l.maxSources ==>
              (Advice(b, l, now, key).None? <==> CountIn(h, None, now, l.window) < l.overall
                                                 && CountIn(h, Some(key), now, l.window) < l.perSource)
  {
    hide Appended, CountIn;
    SoundAdmits(b, h, l, now, key);
  }

  method PopExpired(times: seq<real>, cutoff: real) returns (rest: seq<real>)
    ensures rest == Fresh(times, cutoff)
  {
    rest := times;
    while rest != [] && rest[0] <= cutoff
      invariant Fresh(rest, cutoff) == Fresh(times, cutoff)
      decreases |rest|
    {
      rest := rest[1..];
    }
  }
}
