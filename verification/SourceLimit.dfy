/**
 When the bounded table of sources still keeps every source within its limit: exactly while the overall
 limit is at most the limit per source plus the number of slots.
 */
module SourceLimit {
  import opened Base
  import opened RateLimit

  // ---------------------------------------------------------------- what the table remembers

  /** The position of a source's last start, or -1. */
  function LastAt(h: History, k: string): (i: int)
    ensures -1 <= i < |h|
  {
    if h == [] then -1 else if h[|h| - 1].source == k then |h| - 1 else LastAt(h[..|h| - 1], k)
  }

  /** How many starts of other sources came after position `p`. */
  function OthersAfter(h: History, p: nat, k: string): nat {
    if |h| <= p + 1 then 0
    else OthersAfter(h[..|h| - 1], p, k) + if h[|h| - 1].source != k then 1 else 0
  }

  /** The table has every live start of `k` from position `s` on, and each live one it lost was followed
      by at least as many starts of others as there are slots. */
  ghost predicate KnownSince(b: Book, h: History, k: string, s: nat, cutoff: real, slots: int)
    requires s <= |h|
  {
    && Entry(b, k) == Times(h[s..], Some(k), cutoff)
    && forall i | 0 <= i < s && h[i].source == k && h[i].at > cutoff :: OthersAfter(h, i, k) >= slots
  }

  ghost predicate Recalls(b: Book, h: History, k: string, cutoff: real, slots: int) {
    exists s: nat | s <= |h| :: KnownSince(b, h, k, s, cutoff, slots)
  }

  ghost predicate Remembered(b: Book, h: History, cutoff: real, slots: int) {
    forall k :: Recalls(b, h, k, cutoff, slots)
  }

  /** Least recently used first. */
  ghost predicate Rising(order: seq<string>, h: History) {
    && (forall k | k in order :: LastAt(h, k) >= 0)
    && (forall i, j | 0 <= i < j < |order| :: LastAt(h, order[i]) < LastAt(h, order[j]))
  }

  lemma {:induction false} NotAfterLast(h: History, p: nat)
    requires p < |h|
    ensures p <= LastAt(h, h[p].source)
  {
    if p < |h| - 1 {
      NotAfterLast(h[..|h| - 1], p);
    }
  }

  lemma {:induction false} LiveRises(order: seq<string>, sources: map<string, seq<real>>, cutoff: real, h: History)
    requires Rising(order, h) && Distinct(order)
    ensures Rising(Live(order, sources, cutoff), h)
  {
    hide Rising;
    RisesNone(h);
    if order != [] {
      var init, last := order[..|order| - 1], order[|order| - 1];
      RisingInit(order, h);
      LiveRises(init, sources, cutoff, h);
      LiveIs(init, sources, cutoff);
      RisingAppend(Live(init, sources, cutoff), last, h);
      assert Live(init, sources, cutoff) + [] == Live(init, sources, cutoff);
    }
  }

  lemma RisesNone(h: History)
    ensures Rising([], h)
  {
  }

  lemma RisingInit(order: seq<string>, h: History)
    requires Rising(order, h) && order != []
    ensures var init, last := order[..|order| - 1], order[|order| - 1];
            Rising(init, h) && LastAt(h, last) >= 0 && forall k | k in init :: LastAt(h, k) < LastAt(h, last)
  {
  }

  lemma RisingAppend(order: seq<string>, k: string, h: History)
    requires Rising(order, h) && LastAt(h, k) >= 0 && forall x | x in order :: LastAt(h, x) < LastAt(h, k)
    ensures Rising(order + [k], h)
  {
  }

  lemma RisingTail(order: seq<string>, h: History)
    requires Rising(order, h) && order != []
    ensures var rest := order[1..];
            Rising(rest, h) && LastAt(h, order[0]) >= 0 && forall k | k in rest :: LastAt(h, order[0]) < LastAt(h, k)
  {
    assert forall i | 0 <= i < |order| - 1 :: order[1..][i] == order[i + 1];
  }

  lemma RisingPrepend(k: string, order: seq<string>, h: History)
    requires Rising(order, h) && LastAt(h, k) >= 0 && forall x | x in order :: LastAt(h, k) < LastAt(h, x)
    ensures Rising([k] + order, h)
  {
  }

  lemma {:induction false} WithoutRises(order: seq<string>, key: string, h: History)
    requires Rising(order, h) && Distinct(order)
    ensures Rising(Without(order, key), h)
  {
    hide Rising;
    if order != [] {
      RisingTail(order, h);
      assert forall i | 0 <= i < |order| - 1 :: order[1..][i] == order[i + 1];
      if order[0] != key {
        WithoutRises(order[1..], key, h);
        WithoutIs(order[1..], key);
        RisingPrepend(order[0], Without(order[1..], key), h);
      }
    }
  }

  lemma UsedLast(order: seq<string>, h: History, a: Attempt)
    requires Rising(order, h) && a.source !in order
    ensures Rising(order + [a.source], h + [a])
  {
    forall k ensures LastAt(h + [a], k) == if k == a.source then |h| else LastAt(h, k) {
      assert (h + [a])[..|h|] == h;
    }
  }

  lemma AdmitRises(b: Book, l: Limits, h: History, now: real, key: string)
    requires Sensible(l) && Listed(b) && Rising(b.order, h)
    ensures var (c, d) := Admit(b, l, now, key);
            Rising(c.order, if d.Allowed? then h + [Attempt(now, key)] else h)
  {
    hide Rising;
    WithoutRises(b.order, key, h);
    WithoutIs(b.order, key);
    UsedLast(Without(b.order, key), h, Attempt(now, key));
    if key !in b.order {
      UsedLast(b.order, h, Attempt(now, key));
      if b.order != [] {
        RisingTail(b.order, h);
        UsedLast(b.order[1..], h, Attempt(now, key));
      }
    }
  }

  /** Sources last used after position `p` account for as many starts of others after it. */
  lemma {:induction false} LaterSourcesCount(ks: seq<string>, h: History, p: nat, k: string)
    requires Distinct(ks) && k !in ks && forall x | x in ks :: LastAt(h, x) > p
    ensures |ks| <= OthersAfter(h, p, k)
    decreases |h|
  {
    if ks != [] {
      assert ks[0] in ks;
      var init, last := h[..|h| - 1], h[|h| - 1].source;
      WithoutIs(ks, last);
      LaterSourcesCount(Without(ks, last), init, p, k);
    }
  }

  lemma OthersGrow(h: History, a: Attempt, p: nat, k: string)
    requires p < |h|
    ensures OthersAfter(h + [a], p, k) == OthersAfter(h, p, k) + if a.source != k then 1 else 0
  {
    assert (h + [a])[..|h|] == h;
  }

  lemma PruneRemembers(b: Book, h: History, cutoff: real, later: real, now: real, slots: int)
    requires Ordered(h, now) && cutoff <= later && Remembered(b, h, cutoff, slots)
    ensures Remembered(Pruned(b, later), h, later, slots)
  {
    forall k ensures Recalls(Pruned(b, later), h, k, later, slots) {
      assert Recalls(b, h, k, cutoff, slots);
      var s: nat :| s <= |h| && KnownSince(b, h, k, s, cutoff, slots);
      PruneTimes(h[s..], Some(k), cutoff, later, now);
      assert Entry(Pruned(b, later), k) == Fresh(Entry(b, k), later);
      assert KnownSince(Pruned(b, later), h, k, s, later, slots);
    }
  }

  lemma AdmitRemembers(b: Book, l: Limits, h: History, now: real, key: string)
    requires Sensible(l) && Listed(b) && Rising(b.order, h) && Remembered(b, h, now - l.window, l.maxSources)
    requires Admit(b, l, now, key).1.Allowed?
    ensures Remembered(Admit(b, l, now, key).0, h + [Attempt(now, key)], now - l.window, l.maxSources)
  {
    var c, a, cutoff := Admit(b, l, now, key).0, Attempt(now, key), now - l.window;
    forall k ensures Recalls(c, h + [a], k, cutoff, l.maxSources) {
      assert Recalls(b, h, k, cutoff, l.maxSources);
      var s: nat :| s <= |h| && KnownSince(b, h, k, s, cutoff, l.maxSources);
      if Entry(c, k) == Entry(b, k) + (if k == key then [now] else []) {
        KeptEntry(b, c, h, a, k, s, cutoff, l.maxSources);
      } else {
        assert b.order != [] && k == b.order[0] && k != key && |b.order| >= l.maxSources && k !in c.sources;
        LostEntry(b, c, h, a, k, cutoff, l.maxSources);
      }
    }
  }

  lemma KeptEntry(b: Book, c: Book, h: History, a: Attempt, k: string, s: nat, cutoff: real, slots: int)
    requires s <= |h| && KnownSince(b, h, k, s, cutoff, slots) && a.at > cutoff
    requires Entry(c, k) == Entry(b, k) + if k == a.source then [a.at] else []
    ensures Recalls(c, h + [a], k, cutoff, slots)
  {
    assert (h + [a])[s..] == h[s..] + [a];
    TimesStep(h[s..], a, Some(k), cutoff);
    assert Entry(b, k) + [] == Entry(b, k);
    forall i | 0 <= i < s && h[i].source == k && h[i].at > cutoff ensures OthersAfter(h + [a], i, k) >= slots {
      OthersGrow(h, a, i, k);
    }
    assert KnownSince(c, h + [a], k, s, cutoff, slots);
  }

  /** The source pushed out is the one unused longest, so each of the others was used after it. */
  lemma LostEntry(b: Book, c: Book, h: History, a: Attempt, k: string, cutoff: real, slots: int)
    requires Listed(b) && Rising(b.order, h) && b.order != [] && k == b.order[0] && a.source != k
    requires |b.order| >= slots && k !in c.sources
    ensures Recalls(c, h + [a], k, cutoff, slots)
  {
    var g, others := h + [a], b.order[1..];
    assert forall i | 0 <= i < |others| :: others[i] == b.order[i + 1];
    assert g[|g|..] == [];
    forall i | 0 <= i < |g| && g[i].source == k ensures OthersAfter(g, i, k) >= slots {
      NotAfterLast(h, i);
      LaterSourcesCount(others, h, i, k);
      OthersGrow(h, a, i, k);
    }
    assert KnownSince(c, g, k, |g|, cutoff, slots);
  }

  // ---------------------------------------------------------------- room for every source

  lemma {:induction false} TimesSplit(h: History, s: nat, key: Option<string>, cutoff: real)
    requires s <= |h|
    ensures Times(h, key, cutoff) == Times(h[..s], key, cutoff) + Times(h[s..], key, cutoff)
  {
    hide Times;
    if s < |h| {
      var init, a := h[..|h| - 1], h[|h| - 1];
      TimesSplit(init, s, key, cutoff);
      assert h == init + [a] && h[..s] == init[..s] && h[s..] == init[s..] + [a];
      TimesStep(init, a, key, cutoff);
      TimesStep(init[s..], a, key, cutoff);
    } else {
      assert h[..s] == h && h[s..] == [];
      NoTimes(key, cutoff);
    }
  }

  lemma {:induction false} NoneLive(h: History, k: string, cutoff: real)
    requires forall i | 0 <= i < |h| && h[i].source == k :: h[i].at <= cutoff
    ensures Times(h, Some(k), cutoff) == []
  {
    if h != [] {
      NoneLive(h[..|h| - 1], k, cutoff);
    }
  }

  lemma {:induction false} SourceFewer(h: History, k: string, cutoff: real)
    ensures |Times(h, Some(k), cutoff)| <= |Times(h, None, cutoff)|
  {
    if h != [] {
      SourceFewer(h[..|h| - 1], k, cutoff);
    }
  }

  /** The starts of others after a live one are live too, so they leave that much less for its source. */
  lemma {:induction false} OthersTakeRoom(h: History, p: nat, k: string, cutoff: real, now: real)
    requires Ordered(h, now) && p < |h| && h[p].at > cutoff
    ensures |Times(h, Some(k), cutoff)| + OthersAfter(h, p, k) <= |Times(h, None, cutoff)|
  {
    if p == |h| - 1 {
      SourceFewer(h, k, cutoff);
    } else {
      OthersTakeRoom(h[..|h| - 1], p, k, cutoff, now);
      assert h[|h| - 1].at >= h[p].at;
    }
  }

  /** Within the bound, a start the table would let in never exceeds its source's limit: either the
      table remembers every live start of the source, or too many others came in between. */
  lemma RoomForSource(b: Book, l: Limits, h: History, now: real, key: string)
    requires Sensible(l) && Ordered(h, now) && l.overall <= l.perSource + l.maxSources
    requires Overall(b, h, now - l.window) && Recalls(b, h, key, now - l.window, l.maxSources)
    requires |b.overall| < l.overall && |Entry(b, key)| < l.perSource
    ensures |Times(h, Some(key), now - l.window)| < l.perSource
  {
    var cutoff := now - l.window;
    var s: nat :| s <= |h| && KnownSince(b, h, key, s, cutoff, l.maxSources);
    if i :| 0 <= i < s && h[i].source == key && h[i].at > cutoff {
      OthersTakeRoom(h, i, key, cutoff, now);
    } else {
      TimesSplit(h, s, Some(key), cutoff);
      NoneLive(h[..s], key, cutoff);
    }
  }

  // ---------------------------------------------------------------- what every limiter keeps

  /** Together: the overall window is exact and never overfull; the table holds the sources in the order
      of their use and remembers them as above; and, as far as the limits allow, no source's window is
      ever overfull and no source is ever forgotten. */
  ghost predicate Sound(b: Book, h: History, l: Limits, now: real) {
    && Sensible(l) && Ordered(h, now)
    && Listed(b) && |b.order| <= l.maxSources && Rising(b.order, h)
    && Overall(b, h, now - l.window) && Remembered(b, h, now - l.window, l.maxSources)
    && Within(h, None, l.window, l.overall)
    && (l.overall <= l.perSource + l.maxSources ==> SourcesWithin(h, l))
    && (l.overall <= l.maxSources ==> BySource(b, h, now - l.window))
  }

  ghost predicate SourceWithin(h: History, k: string, l: Limits) {
    Within(h, Some(k), l.window, l.perSource)
  }

  ghost predicate SourcesWithin(h: History, l: Limits) {
    forall k :: SourceWithin(h, k, l)
  }

  const EMPTY := Book([], map[], [])

  lemma EmptyIsSound(l: Limits, now: real)
    requires Sensible(l)
    ensures Sound(EMPTY, [], l, now)
  {
    var b, h: History, cutoff := EMPTY, [], now - l.window;
    forall k ensures Recalls(b, h, k, cutoff, l.maxSources) {
      assert KnownSince(b, h, k, 0, cutoff, l.maxSources);
    }
  }

  lemma SoundAdvances(b: Book, h: History, l: Limits, now: real, later: real)
    requires Sound(b, h, l, now) && now <= later
    ensures Sound(Pruned(b, later - l.window), h, l, later)
  {
    hide Pruned, BySource, Remembered, Within, Times;
    PrunedOrder(b, later - l.window, h);
    PruneKeeps(b, h, now - l.window, later - l.window, later);
    PruneRemembers(b, h, now - l.window, later - l.window, later, l.maxSources);
  }

  lemma PrunedOrder(b: Book, cutoff: real, h: History)
    requires Listed(b) && Rising(b.order, h)
    ensures Rising(Pruned(b, cutoff).order, h)
  {
    LiveRises(b.order, b.sources, cutoff, h);
  }

  /** One start: it is admitted within the bound exactly if the whole history leaves room for it, overall
      and for its source, and admitting it keeps everything. */
  lemma SoundAdmits(b: Book, h: History, l: Limits, now: real, key: string)
    requires Sound(b, h, l, now)
    ensures var (c, d) := Admit(b, l, now, key);
            && Sound(c, if d.Allowed? then h + [Attempt(now, key)] else h, l, now)
            && (!d.MaxTries? ==> (d.Busy? <==> CountIn(h, None, now, l.window) >= l.overall))
            && (d.MaxTries? ==> CountIn(h, Some(key), now, l.window) >= l.perSource)
            && (l.overall <= l.perSource + l.maxSources ==>
                  (d.Allowed? <==> CountIn(h, None, now, l.window) < l.overall && CountIn(h, Some(key), now, l.window) < l.perSource))
            && (l.overall <= l.maxSources ==> (d.MaxTries? <==> CountIn(h, Some(key), now, l.window) >= l.perSource))
  {
    hide Admit, BySource, Times, Rising, Within, CountIn, Remembered, Recalls, Listed;
    var (c, d) := Admit(b, l, now, key);
    var a := Attempt(now, key);
    AdmitKeeps(b, l, h, now, key);
    AdmitRises(b, l, h, now, key);
    AdmitDecides(b, l, h, now, key);
    if d.Allowed? {
      AdmitRemembers(b, l, h, now, key);
      WithinGrows(h, None, l, l.overall, a);
      if l.overall <= l.perSource + l.maxSources {
        SourcesStayWithin(h, l, a);
      }
    }
  }

  lemma SourcesStayWithin(h: History, l: Limits, a: Attempt)
    requires Sensible(l) && Ordered(h, a.at) && SourcesWithin(h, l) && |Times(h, Some(a.source), a.at - l.window)| < l.perSource
    ensures SourcesWithin(h + [a], l)
  {
    hide Within;
    forall k ensures SourceWithin(h + [a], k, l) {
      assert SourceWithin(h, k, l);
      WithinGrows(h, Some(k), l, l.perSource, a);
    }
  }

  lemma AdmitDecides(b: Book, l: Limits, h: History, now: real, key: string)
    requires Sound(b, h, l, now)
    ensures var d := Admit(b, l, now, key).1;
            && (if d.Allowed? then |Times(h, None, now - l.window)| < l.overall else Admit(b, l, now, key).0 == b)
            && (!d.MaxTries? ==> (d.Busy? <==> CountIn(h, None, now, l.window) >= l.overall))
            && (d.MaxTries? ==> CountIn(h, Some(key), now, l.window) >= l.perSource)
            && (d.Allowed? && l.overall <= l.perSource + l.maxSources ==>
                  && |Times(h, Some(key), now - l.window)| < l.perSource && CountIn(h, Some(key), now, l.window) < l.perSource)
            && (l.overall <= l.maxSources ==> (d.MaxTries? <==> CountIn(h, Some(key), now, l.window) >= l.perSource))
  {
    hide Rising, Within, KnownSince, Times, CountIn;
    CountIsTimes(h, None, now, l.window);
    CountIsTimes(h, Some(key), now, l.window);
    assert Recalls(b, h, key, now - l.window, l.maxSources);
    EntryIsLive(b, h, key, now - l.window, l.maxSources);
    var d := Admit(b, l, now, key).1;
    if d.Allowed? && l.overall <= l.perSource + l.maxSources {
      RoomForSource(b, l, h, now, key);
    }
    if l.overall <= l.maxSources {
      AllRemembered(b, h, key, now - l.window);
    }
  }

  lemma EntryIsLive(b: Book, h: History, k: string, cutoff: real, slots: int)
    requires Recalls(b, h, k, cutoff, slots)
    ensures |Entry(b, k)| <= |Times(h, Some(k), cutoff)|
  {
    var s: nat :| s <= |h| && KnownSince(b, h, k, s, cutoff, slots);
    TimesSplit(h, s, Some(k), cutoff);
  }

  lemma AllRemembered(b: Book, h: History, k: string, cutoff: real)
    requires BySource(b, h, cutoff)
    ensures Entry(b, k) == Times(h, Some(k), cutoff)
  {
  }

  // ---------------------------------------------------------------- the boundary

  /** The limiter asked once for each of `starts`, in order: its book, and what it admitted. */
  function Run(l: Limits, starts: History): (Book, History)
    requires Sensible(l)
  {
    if starts == [] then (EMPTY, [])
    else
      var (b, h) := Run(l, starts[..|starts| - 1]);
      var a := starts[|starts| - 1];
      var (c, d) := Admit(Pruned(b, a.at - l.window), l, a.at, a.source);
      (c, if d.Allowed? then h + [a] else h)
  }

  predicate Chronological(starts: History) {
    forall i, j | 0 <= i < j < |starts| :: starts[i].at <= starts[j].at
  }

  lemma {:induction false} RunIsSound(l: Limits, starts: History, now: real)
    requires Sensible(l) && Chronological(starts) && forall i | 0 <= i < |starts| :: starts[i].at <= now
    ensures var (b, h) := Run(l, starts); Sound(Pruned(b, now - l.window), h, l, now)
  {
    hide Sound, Admit, Pruned;
    if starts == [] {
      EmptyIsSound(l, now);
      SoundAdvances(EMPTY, [], l, now, now);
    } else {
      var a := starts[|starts| - 1];
      var (b, h) := Run(l, starts[..|starts| - 1]);
      RunIsSound(l, starts[..|starts| - 1], a.at);
      SoundAdmits(Pruned(b, a.at - l.window), h, l, a.at, a.source);
      SoundAdvances(Run(l, starts).0, Run(l, starts).1, l, a.at, now);
    }
  }

  /** The source the flood comes from, and the others it is interrupted by. */
  function Flooder(l: Limits, i: nat): string
    requires Sensible(l)
  {
    if l.perSource <= i < l.perSource + l.maxSources then Other(i - l.perSource) else "a"
  }

  function Other(i: nat): (k: string)
    ensures |k| == i + 1 && k[0] == 'b'
  {
    seq(i + 1, _ => 'b')
  }

  function Others(n: nat): (ks: seq<string>)
    ensures |ks| == n && forall i | 0 <= i < n :: ks[i] == Other(i)
  {
    seq(n, i requires 0 <= i < n => Other(i))
  }

  /** As many starts by one source as it is allowed, one each by as many others as there are slots, and
      one more by the first, all at one instant. */
  function Flood(l: Limits, n: nat): History
    requires Sensible(l)
  {
    seq(n, i requires 0 <= i < n => Attempt(0.0, Flooder(l, i)))
  }

  lemma FloodGrows(l: Limits, n: nat)
    requires Sensible(l)
    ensures Flood(l, n + 1) == Flood(l, n) + [Attempt(0.0, Flooder(l, n))]
    ensures Flood(l, n + 1)[..n] == Flood(l, n)
    ensures Flood(l, 0) == [] && |Flood(l, n)| == n && Chronological(Flood(l, n))
  {
  }

  /** The book after `n` starts of the flood: the first source sits in front until the last of the
      others pushes it out. */
  ghost predicate Flooded(b: Book, l: Limits, n: nat)
    requires Sensible(l)
  {
    && b.order == (if n == 0 then [] else if n <= l.perSource then ["a"]
                   else if n < l.perSource + l.maxSources then ["a"] + Others(n - l.perSource) else Others(l.maxSources))
    && (forall k :: k in b.sources <==> k in b.order)
    && (forall k | k in b.sources :: b.sources[k] != [] && b.sources[k][0] == 0.0)
    && ("a" in b.sources && n <= l.perSource ==> |b.sources["a"]| == n)
    && |b.overall| == n && (n > 0 ==> b.overall[0] == 0.0)
  }

  lemma {:induction false} AllLive(order: seq<string>, sources: map<string, seq<real>>, cutoff: real)
    requires forall k | k in order :: k in sources && Fresh(sources[k], cutoff) != []
    ensures Live(order, sources, cutoff) == order
  {
    if order != [] {
      AllLive(order[..|order| - 1], sources, cutoff);
      assert order == order[..|order| - 1] + [order[|order| - 1]];
    }
  }

  lemma FloodIsFresh(b: Book, l: Limits, n: nat)
    requires Sensible(l) && Flooded(b, l, n)
    ensures Pruned(b, 0.0 - l.window) == b
  {
    hide Live, Others, Other;
    AllFresh(b.sources, 0.0 - l.window);
    AllLive(b.order, b.sources, 0.0 - l.window);
  }

  lemma AllFresh(sources: map<string, seq<real>>, cutoff: real)
    requires forall k | k in sources :: sources[k] != [] && sources[k][0] > cutoff
    ensures forall k | k in sources :: Fresh(sources[k], cutoff) == sources[k]
    ensures (map k | k in sources && Fresh(sources[k], cutoff) != [] :: Fresh(sources[k], cutoff)) == sources
  {
  }

  lemma FloodStep(b: Book, l: Limits, n: nat)
    requires Sensible(l) && Flooded(b, l, n) && n < l.perSource + l.maxSources && n < l.overall
    ensures var (c, d) := Admit(b, l, 0.0, Flooder(l, n)); d.Allowed? && Flooded(c, l, n + 1)
  {
    if n < l.perSource {
      FloodAgain(b, l, n);
    } else {
      FloodOther(b, l, n);
    }
  }

  lemma FloodAgain(b: Book, l: Limits, n: nat)
    requires Sensible(l) && Flooded(b, l, n) && n < l.perSource && n < l.overall
    ensures var (c, d) := Admit(b, l, 0.0, "a"); d.Allowed? && Flooded(c, l, n + 1)
  {
    assert Without(["a"], "a") == [];
    assert [] + ["a"] == ["a"];
  }

  lemma FloodOther(b: Book, l: Limits, n: nat)
    requires Sensible(l) && Flooded(b, l, n) && l.perSource <= n < l.perSource + l.maxSources && n < l.overall
    ensures var (c, d) := Admit(b, l, 0.0, Other(n - l.perSource)); d.Allowed? && Flooded(c, l, n + 1)
  {
    hide Admit, Others, Other;
    var j := n - l.perSource;
    OneMoreOther(j);
    assert b.order == ["a"] + Others(j);
    NewcomerIsAdmitted(b, l, Other(j));
    assert b.order[1..] == Others(j) && b.order[0] == "a";
  }

  lemma OneMoreOther(j: nat)
    ensures Others(j) + [Other(j)] == Others(j + 1)
    ensures ["a"] + Others(j) + [Other(j)] == ["a"] + Others(j + 1)
    ensures Other(j) !in ["a"] + Others(j) && "a" !in Others(j + 1)
  {
    assert "a"[0] == 'a';
    assert forall i | 0 <= i < j :: |Other(i)| != |Other(j)|;
  }

  /** A source without an entry takes the place of the one in front, if the table is full. */
  lemma NewcomerIsAdmitted(b: Book, l: Limits, key: string)
    requires Sensible(l) && key !in b.sources && |b.overall| < l.overall && b.order != []
    ensures Admit(b, l, 0.0, key)
            == (if |b.order| >= l.maxSources
                then Book(b.order[1..] + [key], (b.sources - {b.order[0]})[key := [0.0]], b.overall + [0.0])
                else Book(b.order + [key], b.sources[key := [0.0]], b.overall + [0.0]),
                Allowed)
  {
    var none: seq<real> := [];
    assert none + [0.0] == [0.0];
  }

  lemma {:induction false} FloodIsAdmitted(l: Limits, n: nat)
    requires Sensible(l) && n <= l.perSource + l.maxSources && n <= l.overall
    ensures var (b, h) := Run(l, Flood(l, n)); h == Flood(l, n) && Flooded(b, l, n)
  {
    hide Admit, Pruned, Flooded, Flood, Flooder;
    if n == 0 {
      FloodGrows(l, 0);
      EmptyFlood(l);
    } else {
      FloodIsAdmitted(l, n - 1);
      var (b, h) := Run(l, Flood(l, n - 1));
      FloodGrows(l, n - 1);
      FloodIsFresh(b, l, n - 1);
      FloodStep(b, l, n - 1);
    }
  }

  lemma EmptyFlood(l: Limits)
    requires Sensible(l)
    ensures Flooded(EMPTY, l, 0)
  {
  }

  lemma {:induction false} FloodCounts(l: Limits, n: nat)
    requires Sensible(l) && n <= l.perSource + l.maxSources + 1
    ensures CountIn(Flood(l, n), Some("a"), 0.0, l.window)
            == if n <= l.perSource then n else if n <= l.perSource + l.maxSources then l.perSource else l.perSource + 1
  {
    hide Flood;
    FloodGrows(l, n);
    if n > 0 {
      FloodCounts(l, n - 1);
      FloodGrows(l, n - 1);
      OneMoreOther(if n - 1 >= l.perSource then n - 1 - l.perSource else 0);
    }
  }

  lemma FloodReturns(b: Book, l: Limits)
    requires Sensible(l) && Flooded(b, l, l.perSource + l.maxSources) && l.overall > l.perSource + l.maxSources
    ensures Admit(b, l, 0.0, "a").1.Allowed?
  {
    OneMoreOther(l.maxSources - 1);
  }

  /** Beyond the bound a source can be forgotten and let in once more: the whole flood is admitted. */
  lemma EvictionForgets(l: Limits)
    requires Sensible(l) && l.overall > l.perSource + l.maxSources
    ensures var starts := Flood(l, l.perSource + l.maxSources + 1);
            && Chronological(starts) && Run(l, starts).1 == starts
            && CountIn(starts, Some("a"), 0.0, l.window) > l.perSource
  {
    hide Pruned, Flood, Flooded, Admit, CountIn;
    var n := l.perSource + l.maxSources;
    FloodIsAdmitted(l, n);
    FloodCounts(l, n + 1);
    FloodGrows(l, n);
    FloodGrows(l, n + 1);
    FloodIsFresh(Run(l, Flood(l, n)).0, l, n);
    FloodReturns(Run(l, Flood(l, n)).0, l);
  }

  ghost predicate KeepsIn(l: Limits, starts: History)
    requires Sensible(l)
  {
    SourcesWithin(Run(l, starts).1, l)
  }

  /** Whatever the starts, no source gets more of them admitted in any window than its limit: exactly
      while the overall limit is at most the limit per source plus the number of slots. */
  lemma SourceLimitKeptIff(l: Limits)
    requires Sensible(l)
    ensures (forall starts: History | Chronological(starts) :: KeepsIn(l, starts)) <==> l.overall <= l.perSource + l.maxSources
  {
    hide Run, CountIn, Flood, Within;
    if l.overall <= l.perSource + l.maxSources {
      forall starts: History | Chronological(starts) ensures KeepsIn(l, starts) {
        KeptWithinBound(l, starts);
      }
    } else {
      EvictionForgets(l);
      BrokenBeyondBound(l, Flood(l, l.perSource + l.maxSources + 1));
    }
  }

  lemma KeptWithinBound(l: Limits, starts: History)
    requires Sensible(l) && Chronological(starts) && l.overall <= l.perSource + l.maxSources
    ensures KeepsIn(l, starts)
  {
    RunIsSound(l, starts, if starts == [] then 0.0 else starts[|starts| - 1].at);
  }

  lemma BrokenBeyondBound(l: Limits, starts: History)
    requires Sensible(l) && Run(l, starts).1 == starts && CountIn(starts, Some("a"), 0.0, l.window) > l.perSource
    ensures !KeepsIn(l, starts)
  {
    hide Run;
    assert KeepsIn(l, starts) ==> SourceWithin(starts, "a", l);
  }
}
