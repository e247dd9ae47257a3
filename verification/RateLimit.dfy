/** The shared limit on pair-setup starts: sliding windows per source and overall, with a bounded table
    of sources kept in order of use. */
module RateLimit {
  import opened Base

  datatype Limits = Limits(perSource: int, overall: int, window: real, maxSources: int)

  predicate Sensible(l: Limits) {
    l.perSource >= 1 && l.overall >= 1 && l.window > 0.0 && l.maxSources >= 1
  }

  /** The attempts on record: all of them, and by source, least recently used source first. */
  datatype Book = Book(order: seq<string>, sources: map<string, seq<real>>, overall: seq<real>)

  /** `retryAfter` is in whole seconds. */
  datatype Decision = Allowed | MaxTries(retryAfter: int) | Busy(retryAfter: int)

  // ---------------------------------------------------------------- the limiter on values

  /** Drop the oldest times, up to the first one still inside the window. */
  function Fresh(times: seq<real>, cutoff: real): seq<real> {
    if times == [] || times[0] > cutoff then times else Fresh(times[1..], cutoff)
  }

  function Live(order: seq<string>, sources: map<string, seq<real>>, cutoff: real): seq<string> {
    if order == [] then []
    else Live(order[..|order| - 1], sources, cutoff) +
         var k := order[|order| - 1]; if k in sources && Fresh(sources[k], cutoff) != [] then [k] else []
  }

  function Pruned(b: Book, cutoff: real): Book {
    Book(Live(b.order, b.sources, cutoff),
         map k | k in b.sources && Fresh(b.sources[k], cutoff) != [] :: Fresh(b.sources[k], cutoff),
         Fresh(b.overall, cutoff))
  }

  function RetryAfter(l: Limits, now: real, oldest: real): int {
    Max(1, Ceiling(l.window - (now - oldest)))
  }

  function Without(order: seq<string>, key: string): seq<string> {
    if order == [] then []
    else if order[0] == key then order[1..]
    else [order[0]] + Without(order[1..], key)
  }

  /** Admit one start by `key`, on a book already pruned. */
  function Admit(b: Book, l: Limits, now: real, key: string): (Book, Decision)
    requires Sensible(l)
  {
    if key in b.sources && |b.sources[key]| >= l.perSource then (b, MaxTries(RetryAfter(l, now, b.sources[key][0])))
    else if |b.overall| >= l.overall then (b, Busy(RetryAfter(l, now, b.overall[0])))
    else (Appended(b, l, now, key), Allowed)
  }

  function Entry(b: Book, k: string): seq<real> {
    if k in b.sources then b.sources[k] else []
  }

  /** The attempt put on record, at the end of both lists; a new source may push out the first one. */
  function Appended(b: Book, l: Limits, now: real, key: string): Book {
    var (order, sources) :=
      if key in b.sources then (Without(b.order, key) + [key], b.sources)
      else if |b.order| >= l.maxSources && b.order != [] then (b.order[1..] + [key], b.sources - {b.order[0]})
      else (b.order + [key], b.sources);
    Book(order, sources[key := Entry(b, key) + [now]], b.overall + [now])
  }

  // ---------------------------------------------------------------- against the whole history

  datatype Attempt = Attempt(at: real, source: string)

  type History = seq<Attempt>

  predicate Matches(a: Attempt, key: Option<string>) {
    key.None? || key.value == a.source
  }

  /** The times after `cutoff` of the admitted starts, of one source or of all. */
  function Times(h: History, key: Option<string>, cutoff: real): seq<real> {
    if h == [] then []
    else
      var a := h[|h| - 1];
      Times(h[..|h| - 1], key, cutoff) + if Matches(a, key) && a.at > cutoff then [a.at] else []
  }

  /** How many starts were admitted in the half-open window that ends with `end`. */
  function CountIn(h: History, key: Option<string>, end: real, window: real): nat {
    if h == [] then 0
    else
      var a := h[|h| - 1];
      CountIn(h[..|h| - 1], key, end, window) + if Matches(a, key) && end - window < a.at <= end then 1 else 0
  }

  predicate Ordered(h: History, now: real) {
    && (forall i, j | 0 <= i < j < |h| :: h[i].at <= h[j].at)
    && (forall i | 0 <= i < |h| :: h[i].at <= now)
  }

  lemma {:induction false} FreshAppend(times: seq<real>, t: real, cutoff: real)
    ensures Fresh(times + [t], cutoff) == if Fresh(times, cutoff) != [] then Fresh(times, cutoff) + [t] else Fresh([t], cutoff)
  {
    if times == [] {
      assert times + [t] == [t];
    } else if times[0] <= cutoff {
      assert (times + [t])[1..] == times[1..] + [t];
      FreshAppend(times[1..], t, cutoff);
    }
  }

  lemma {:induction false} TimesBetween(h: History, key: Option<string>, cutoff: real, now: real)
    requires forall i | 0 <= i < |h| :: h[i].at <= now
    ensures forall t | t in Times(h, key, cutoff) :: cutoff < t <= now
  {
    if h != [] {
      TimesBetween(h[..|h| - 1], key, cutoff, now);
    }
  }

  /** Pruning forgets exactly what has left the window. */
  lemma {:induction false} PruneTimes(h: History, key: Option<string>, cutoff: real, later: real, now: real)
    requires Ordered(h, now) && cutoff <= later
    ensures Fresh(Times(h, key, cutoff), later) == Times(h, key, later)
  {
    hide Fresh, Times;
    if h == [] {
      FreshOfNone(later);
      NoTimes(key, cutoff);
      NoTimes(key, later);
    } else {
      var init, a := h[..|h| - 1], h[|h| - 1];
      PruneTimes(init, key, cutoff, later, a.at);
      TimesBetween(init, key, later, a.at);
      TimesStep(init, a, key, cutoff);
      TimesStep(init, a, key, later);
      assert h == init + [a];
      FreshGrows(Times(init, key, cutoff), a.at, cutoff, later);
    }
  }

  lemma FreshGrows(times: seq<real>, t: real, cutoff: real, later: real)
    requires cutoff <= later && forall u | u in Fresh(times, later) :: later < u <= t
    ensures Fresh(if t > cutoff then times + [t] else times, later) == if t > later then Fresh(times, later) + [t] else Fresh(times, later)
  {
    hide Fresh;
    FreshAppend(times, t, later);
    FreshOne(t, later);
    var left := Fresh(times, later);
    if left == [] {
      assert left + [t] == [t];
    } else {
      var first := left[0];
      assert first in Fresh(times, later);
      assert t > later;
    }
  }

  lemma NoTimes(key: Option<string>, cutoff: real)
    ensures Times([], key, cutoff) == []
  {
  }

  lemma FreshOfNone(cutoff: real)
    ensures Fresh([], cutoff) == []
  {
  }

  lemma FreshOne(t: real, cutoff: real)
    ensures Fresh([t], cutoff) == if t > cutoff then [t] else []
  {
    assert [t][1..] == [];
  }

  lemma TimesStep(h: History, a: Attempt, key: Option<string>, cutoff: real)
    ensures Times(h + [a], key, cutoff) == if Matches(a, key) && a.at > cutoff then Times(h, key, cutoff) + [a.at] else Times(h, key, cutoff)
  {
    assert (h + [a])[..|h|] == h;
  }

  /** The book says exactly what the history says about the window after `cutoff`. */
  ghost predicate Overall(b: Book, h: History, cutoff: real) {
    b.overall == Times(h, None, cutoff)
  }

  ghost predicate BySource(b: Book, h: History, cutoff: real) {
    && (forall k :: k in b.sources <==> Times(h, Some(k), cutoff) != [])
    && (forall k | k in b.sources :: b.sources[k] == Times(h, Some(k), cutoff))
  }

  predicate Distinct(order: seq<string>) {
    forall i, j | 0 <= i < j < |order| :: order[i] != order[j]
  }

  /** The order lists the sources, each once. */
  ghost predicate Listed(b: Book) {
    Distinct(b.order) && forall k :: k in b.order <==> k in b.sources
  }

  lemma {:induction false} WithoutIs(order: seq<string>, key: string)
    requires Distinct(order)
    ensures Distinct(Without(order, key)) && key !in Without(order, key)
    ensures forall k | k != key :: k in Without(order, key) <==> k in order
    ensures |Without(order, key)| == |order| - if key in order then 1 else 0
  {
    if order != [] {
      assert order == [order[0]] + order[1..];
      assert order[0] !in order[1..];
      if order[0] != key {
        WithoutIs(order[1..], key);
        assert order[0] !in Without(order[1..], key);
      }
    }
  }

  lemma {:induction false} LiveIs(order: seq<string>, sources: map<string, seq<real>>, cutoff: real)
    requires Distinct(order)
    ensures Distinct(Live(order, sources, cutoff)) && |Live(order, sources, cutoff)| <= |order|
    ensures forall k :: k in Live(order, sources, cutoff) <==> k in order && k in sources && Fresh(sources[k], cutoff) != []
  {
    if order != [] {
      LiveIs(order[..|order| - 1], sources, cutoff);
      assert order == order[..|order| - 1] + [order[|order| - 1]];
      assert order[|order| - 1] !in order[..|order| - 1];
    }
  }

  /** Every listed source accounts for at least one start in the window, so there are never more
      sources than starts. */
  lemma {:induction false} SourcesFit(order: seq<string>, h: History, cutoff: real)
    requires Distinct(order) && forall k | k in order :: Times(h, Some(k), cutoff) != []
    ensures |order| <= |Times(h, None, cutoff)|
    decreases |h|
  {
    if h == [] {
      if order != [] {
        assert order[0] in order;
      }
    } else {
      var init, a := h[..|h| - 1], h[|h| - 1];
      if a.at > cutoff {
        WithoutIs(order, a.source);
        SourcesFit(Without(order, a.source), init, cutoff);
      } else {
        SourcesFit(order, init, cutoff);
      }
    }
  }

  lemma PruneKeeps(b: Book, h: History, cutoff: real, later: real, now: real)
    requires Ordered(h, now) && cutoff <= later && Overall(b, h, cutoff) && Listed(b)
    ensures Overall(Pruned(b, later), h, later) && Listed(Pruned(b, later))
    ensures BySource(b, h, cutoff) ==> BySource(Pruned(b, later), h, later)
    ensures |Pruned(b, later).order| <= |b.order|
  {
    PruneTimes(h, None, cutoff, later, now);
    LiveIs(b.order, b.sources, later);
    if BySource(b, h, cutoff) {
      forall k ensures Fresh(Times(h, Some(k), cutoff), later) == Times(h, Some(k), later) {
        PruneTimes(h, Some(k), cutoff, later, now);
      }
    }
  }

  lemma TimesAppend(h: History, a: Attempt, cutoff: real)
    requires a.at > cutoff
    ensures Times(h + [a], None, cutoff) == Times(h, None, cutoff) + [a.at]
    ensures forall k :: Times(h + [a], Some(k), cutoff) == if k == a.source then Times(h, Some(k), cutoff) + [a.at] else Times(h, Some(k), cutoff)
  {
    assert (h + [a])[..|h|] == h;
  }

  /** With at least as many source slots as starts in all, no source is ever pushed out. */
  lemma AdmitKeeps(b: Book, l: Limits, h: History, now: real, key: string)
    requires Sensible(l) && Ordered(h, now) && Listed(b) && Overall(b, h, now - l.window) && |b.order| <= l.maxSources
    ensures var (c, d) := Admit(b, l, now, key);
            var g := if d.Allowed? then h + [Attempt(now, key)] else h;
            && Ordered(g, now) && Listed(c) && Overall(c, g, now - l.window) && |c.order| <= l.maxSources
            && (BySource(b, h, now - l.window) && l.overall <= l.maxSources ==> BySource(c, g, now - l.window))
  {
    hide Times, BySource;
    TimesAppend(h, Attempt(now, key), now - l.window);
    AdmitKeepsListed(b, l, now, key);
    if BySource(b, h, now - l.window) && l.overall <= l.maxSources {
      RoomForAll(b, l, h, now - l.window);
      AdmitKeepsSources(b, l, h, now, key);
    }
  }

  lemma RoomForAll(b: Book, l: Limits, h: History, cutoff: real)
    requires Listed(b) && Overall(b, h, cutoff) && BySource(b, h, cutoff) && l.overall <= l.maxSources
    ensures |b.overall| < l.overall ==> |b.order| < l.maxSources
  {
    SourcesFit(b.order, h, cutoff);
  }

  lemma AdmitKeepsListed(b: Book, l: Limits, now: real, key: string)
    requires Sensible(l) && Listed(b) && |b.order| <= l.maxSources
    ensures Listed(Admit(b, l, now, key).0) && |Admit(b, l, now, key).0.order| <= l.maxSources
  {
    AppendedIsListed(b, l, now, key);
  }

  lemma AppendedIsListed(b: Book, l: Limits, now: real, key: string)
    requires Listed(b)
    ensures Listed(Appended(b, l, now, key))
    ensures |b.order| <= l.maxSources && 1 <= l.maxSources ==> |Appended(b, l, now, key).order| <= l.maxSources
  {
    WithoutIs(b.order, key);
    if b.order != [] {
      assert b.order == [b.order[0]] + b.order[1..];
      assert b.order[0] !in b.order[1..];
    }
  }

  lemma AdmitKeepsSources(b: Book, l: Limits, h: History, now: real, key: string)
    requires Sensible(l) && BySource(b, h, now - l.window) && (|b.overall| < l.overall ==> |b.order| < l.maxSources)
    ensures var (c, d) := Admit(b, l, now, key);
            BySource(c, if d.Allowed? then h + [Attempt(now, key)] else h, now - l.window)
  {
    TimesAppend(h, Attempt(now, key), now - l.window);
  }

  // ---------------------------------------------------------------- no window is ever overfull

  lemma {:induction false} CountIsTimes(h: History, key: Option<string>, end: real, window: real)
    ensures CountIn(h, key, end, window) <= |Times(h, key, end - window)|
    ensures (forall i | 0 <= i < |h| :: h[i].at <= end) ==> CountIn(h, key, end, window) == |Times(h, key, end - window)|
  {
    if h != [] {
      CountIsTimes(h[..|h| - 1], key, end, window);
    }
  }

  lemma {:induction false} TimesShrink(h: History, key: Option<string>, cutoff: real, later: real)
    requires cutoff <= later
    ensures |Times(h, key, later)| <= |Times(h, key, cutoff)|
  {
    if h != [] {
      TimesShrink(h[..|h| - 1], key, cutoff, later);
    }
  }

  /** Every half-open window of this length holds at most so many starts. */
  ghost predicate Within(h: History, key: Option<string>, window: real, limit: int) {
    forall end: real :: CountIn(h, key, end, window) <= limit
  }

  lemma WithinGrows(h: History, key: Option<string>, l: Limits, limit: int, a: Attempt)
    requires Sensible(l) && Ordered(h, a.at) && Within(h, key, l.window, limit)
    requires Matches(a, key) ==> |Times(h, key, a.at - l.window)| < limit
    ensures Within(h + [a], key, l.window, limit)
  {
    assert (h + [a])[..|h|] == h;
    forall end: real ensures CountIn(h + [a], key, end, l.window) <= limit {
      if a.at <= end {
        CountIsTimes(h, key, end, l.window);
        TimesShrink(h, key, a.at - l.window, end - l.window);
      }
    }
  }

  /** A source turned away by its own limit, if nothing more of it is admitted meanwhile, has a free
      slot again after the advised wait and not a whole second sooner. */
  lemma AdvisedWaitFrees(l: Limits, now: real, attempts: seq<real>, later: real)
    requires Sensible(l) && attempts != [] && now - l.window < attempts[0] <= now
    ensures var wait := RetryAfter(l, now, attempts[0]);
            && (later >= now + wait as real ==> |Fresh(attempts, later - l.window)| < |attempts|)
            && (wait > 1 && now <= later <= now + (wait - 1) as real ==> Fresh(attempts, later - l.window) == attempts)
  {
    FreshNotLonger(attempts[1..], later - l.window);
  }

  lemma {:induction false} FreshNotLonger(times: seq<real>, cutoff: real)
    ensures |Fresh(times, cutoff)| <= |times|
  {
    if times != [] {
      FreshNotLonger(times[1..], cutoff);
    }
  }

  /** How long a source is asked to wait, on a pruned book: not at all while no limit is full. */
  function Advice(b: Book, l: Limits, now: real, key: string): Option<int>
    requires Sensible(l)
  {
    var full := key in b.sources && |b.sources[key]| >= l.perSource;
    if |b.overall| >= l.overall then
      Some(RetryAfter(l, now, if full && b.sources[key][0] < b.overall[0] then b.sources[key][0] else b.overall[0]))
    else if full then Some(RetryAfter(l, now, b.sources[key][0]))
    else None
  }

  lemma LeastWait(l: Limits, now: real, oldest: real)
    requires now - l.window < oldest <= now
    ensures var wait := RetryAfter(l, now, oldest);
            wait >= 1 && oldest <= now + wait as real - l.window && (wait > 1 ==> now + (wait - 1) as real - l.window < oldest)
  {
  }

  /** Some limit that is full frees a place for this source once everything up to `cutoff` is forgotten. */
  predicate Frees(b: Book, l: Limits, key: string, cutoff: real) {
    || (|b.overall| >= l.overall && b.overall != [] && b.overall[0] <= cutoff)
    || (|Entry(b, key)| >= l.perSource && Entry(b, key) != [] && Entry(b, key)[0] <= cutoff)
  }

  /** The advised wait is the least number of whole seconds, at least one, until a full limit frees a place. */
  lemma AdviceIsLeast(b: Book, l: Limits, now: real, key: string)
    requires Sensible(l) && (forall t | t in b.overall || t in Entry(b, key) :: now - l.window < t <= now)
    requires Advice(b, l, now, key).Some?
    ensures var wait := Advice(b, l, now, key).value;
            wait >= 1 && Frees(b, l, key, now + wait as real - l.window) && !(wait > 1 && Frees(b, l, key, now + (wait - 1) as real - l.window))
  {
    if b.overall != [] {
      assert b.overall[0] in b.overall;
      LeastWait(l, now, b.overall[0]);
    }
    if Entry(b, key) != [] {
      assert Entry(b, key)[0] in Entry(b, key);
      LeastWait(l, now, Entry(b, key)[0]);
    }
  }

  /** A start that is turned away is told the least number of whole seconds until the limit it met, its
      own before the overall one, frees a place. */
  lemma DecisionIsLeast(b: Book, l: Limits, now: real, key: string)
    requires Sensible(l) && (forall t | t in b.overall || t in Entry(b, key) :: now - l.window < t <= now)
    ensures var mine := Entry(b, key);
            match Admit(b, l, now, key).1
            case Allowed => |mine| < l.perSource && |b.overall| < l.overall
            case MaxTries(wait) =>
              |mine| >= l.perSource && wait >= 1 && mine[0] <= now + wait as real - l.window
              && (wait > 1 ==> now + (wait - 1) as real - l.window < mine[0])
            case Busy(wait) =>
              |mine| < l.perSource && |b.overall| >= l.overall && wait >= 1 && b.overall[0] <= now + wait as real - l.window
              && (wait > 1 ==> now + (wait - 1) as real - l.window < b.overall[0])
  {
    hide Appended;
    if b.overall != [] {
      assert b.overall[0] in b.overall;
      LeastWait(l, now, b.overall[0]);
    }
    if Entry(b, key) != [] {
      assert Entry(b, key)[0] in Entry(b, key);
      LeastWait(l, now, Entry(b, key)[0]);
    }
  }

  /** After the advised wait, if nothing is recorded meanwhile, the source may start exactly if whatever
      limit was full has its oldest entry out of the window by then. */
  lemma AdvisedWaitIsEnoughIff(b: Book, l: Limits, now: real, key: string)
    requires Sensible(l) && |b.overall| <= l.overall && forall k | k in b.sources :: 1 <= |b.sources[k]| <= l.perSource
    requires Advice(b, l, now, key).Some?
    ensures var wait := Advice(b, l, now, key).value as real;
            var cutoff := now + wait - l.window;
            Advice(Pruned(b, cutoff), l, now + wait, key).None? <==>
            && (|b.overall| == l.overall ==> b.overall[0] <= cutoff)
            && (key in b.sources && |b.sources[key]| == l.perSource ==> b.sources[key][0] <= cutoff)
  {
    var cutoff := now + Advice(b, l, now, key).value as real - l.window;
    FreshFrees(b.overall, cutoff);
    if key in b.sources {
      FreshFrees(b.sources[key], cutoff);
    }
  }

  lemma FreshFrees(times: seq<real>, cutoff: real)
    ensures |Fresh(times, cutoff)| <= |times|
    ensures times != [] ==> (|Fresh(times, cutoff)| < |times| <==> times[0] <= cutoff)
  {
    FreshNotLonger(times, cutoff);
    if times != [] {
      FreshNotLonger(times[1..], cutoff);
    }
  }

  /** With both limits full the advised wait may end with the other one still full. */
  lemma AdviceCanBeEarly()
    ensures var l, b := Limits(1, 2, 60.0, 5), Book(["b", "a"], map["b" := [0.0], "a" := [10.0]], [0.0, 10.0]);
            && Advice(b, l, 20.0, "a") == Some(40)
            && Advice(Pruned(b, 60.0 - 60.0), l, 60.0, "a").Some?
  {
    var b := Book(["b", "a"], map["b" := [0.0], "a" := [10.0]], [0.0, 10.0]);
    assert Fresh([10.0], 0.0) == [10.0] && "a" in Pruned(b, 0.0).sources;
  }
}
